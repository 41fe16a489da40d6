/** Memory Node queries: ordering by several clauses, paging by cursor, and trimming to a token budget. */
module MemoryQuery {
  import opened Common
  import opened Filters
  import opened StableSorts

  // ---------------------------------------------------------------- ordering

  datatype Clause = Clause(field: string, desc: bool)

  /** The sort key order: missing values last; texts by code point. Values of two types do not compare. */
  predicate KeyLeq(a: Value, b: Value) {
    match (a, b)
    case (_, Null) => true
    case (Null, _) => false
    case (Num(x), Num(y)) => x <= y
    case (Text(x), Text(y)) => Leq(x, y)
    case (Num(_), Text(_)) => true
    case (Text(_), Num(_)) => false
  }

  predicate RowLeq(c: Clause, a: Row, b: Row) {
    if c.desc then KeyLeq(Get(b, c.field), Get(a, c.field)) else KeyLeq(Get(a, c.field), Get(b, c.field))
  }

  function ByClause(c: Clause): (Row, Row) -> bool { (a, b) => RowLeq(c, a, b) }

  lemma KeyLeqPreorder(a: Value, b: Value, c: Value)
    ensures KeyLeq(a, b) || KeyLeq(b, a)
    ensures KeyLeq(a, b) && KeyLeq(b, c) ==> KeyLeq(a, c)
  {
    if a.Text? && b.Text? { LeqTotal(a.s, b.s); }
    if a.Text? && b.Text? && c.Text? && Leq(a.s, b.s) && Leq(b.s, c.s) { LeqTransitive(a.s, b.s, c.s); }
  }

  /** Python refuses to compare a number with a text: such a column cannot be sorted by. */
  predicate Sortable(rows: seq<Row>, c: Clause) {
    !exists i, j :: 0 <= i < |rows| && 0 <= j < |rows| && Get(rows[i], c.field).Num? && Get(rows[j], c.field).Text?
  }

  /** One stable sort per clause, the last clause first. */
  function Passes(rows: seq<Row>, clauses: seq<Clause>): seq<Row> {
    if clauses == [] then rows else Sort(Passes(rows, clauses[1..]), ByClause(clauses[0]))
  }

  predicate AllSortable(rows: seq<Row>, clauses: seq<Clause>) {
    clauses == [] || (Sortable(rows, clauses[0]) && AllSortable(rows, clauses[1..]))
  }

  /** The ordering loop of `query`. */
  method OrderRows(rows: seq<Row>, clauses: seq<Clause>) returns (r: Option<seq<Row>>)
    ensures r == if AllSortable(rows, clauses) then Some(Passes(rows, clauses)) else None
  {
    var matched := rows;
    var i := |clauses|;
    while i > 0
      invariant 0 <= i <= |clauses|
      invariant matched == Passes(rows, clauses[i..])
      invariant AllSortable(rows, clauses[i..])
    {
      i := i - 1;
      assert clauses[i..][1..] == clauses[i + 1..];
      ColumnSurvives(rows, clauses[i + 1..], clauses[i]);
      if !Sortable(matched, clauses[i]) {
        OneBadColumn(rows, clauses, i);
        return None;
      }
      matched := Sort(matched, ByClause(clauses[i]));
    }
    assert clauses[0..] == clauses;
    r := Some(matched);
  }

  lemma {:induction false} OneBadColumn(rows: seq<Row>, clauses: seq<Clause>, i: nat)
    requires i < |clauses| && !Sortable(rows, clauses[i])
    ensures !AllSortable(rows, clauses)
    decreases i
  {
    if i > 0 { OneBadColumn(rows, clauses[1..], i - 1); }
  }

  lemma {:induction false} PassesKeepItems(rows: seq<Row>, clauses: seq<Clause>)
    ensures multiset(Passes(rows, clauses)) == multiset(rows)
  {
    if clauses != [] {
      PassesKeepItems(rows, clauses[1..]);
      SortKeepsItems(Passes(rows, clauses[1..]), ByClause(clauses[0]));
    }
  }

  lemma ColumnSurvives(rows: seq<Row>, clauses: seq<Clause>, c: Clause)
    ensures Sortable(Passes(rows, clauses), c) == Sortable(rows, c)
  {
    PassesKeepItems(rows, clauses);
    SameColumn(rows, Passes(rows, clauses), c);
  }

  lemma SameColumn(a: seq<Row>, b: seq<Row>, c: Clause)
    requires multiset(a) == multiset(b)
    ensures Sortable(a, c) == Sortable(b, c)
  {
    if !Sortable(a, c) { UnsortableIn(a, b, c); }
    if !Sortable(b, c) { UnsortableIn(b, a, c); }
  }

  lemma UnsortableIn(a: seq<Row>, b: seq<Row>, c: Clause)
    requires multiset(a) == multiset(b) && !Sortable(a, c)
    ensures !Sortable(b, c)
  {
    var i, j :| 0 <= i < |a| && 0 <= j < |a| && Get(a[i], c.field).Num? && Get(a[j], c.field).Text?;
    assert a[i] in multiset(b) && a[j] in multiset(b);
    var k :| 0 <= k < |b| && b[k] == a[i];
    var l :| 0 <= l < |b| && b[l] == a[j];
    assert Get(b[k], c.field).Num? && Get(b[l], c.field).Text?;
  }

  /** `a` before `b` by the first clause that tells them apart, and by `tie` when none does. */
  predicate Ranked(clauses: seq<Clause>, a: Row, b: Row, tie: bool) {
    if clauses == [] then tie
    else RowLeq(clauses[0], a, b) && (RowLeq(clauses[0], b, a) ==> Ranked(clauses[1..], a, b, tie))
  }

  // Rows together with the place they had before any sorting.

  type Placed = (Row, nat)

  function Place(rows: seq<Row>, from: nat): seq<Placed> {
    if rows == [] then [] else [(rows[0], from)] + Place(rows[1..], from + 1)
  }

  function Rows(s: seq<Placed>): seq<Row> { if s == [] then [] else [s[0].0] + Rows(s[1..]) }

  function ByPlaced(c: Clause): (Placed, Placed) -> bool { (a: Placed, b: Placed) => RowLeq(c, a.0, b.0) }

  function RankOf(clauses: seq<Clause>): (Placed, Placed) -> bool {
    (a: Placed, b: Placed) => Ranked(clauses, a.0, b.0, a.1 < b.1)
  }

  function PlacedPasses(s: seq<Placed>, clauses: seq<Clause>): seq<Placed> {
    if clauses == [] then s else Sort(PlacedPasses(s, clauses[1..]), ByPlaced(clauses[0]))
  }

  lemma {:induction false} InsertForgets(x: Placed, s: seq<Placed>, c: Clause)
    ensures Rows(Insert(x, s, ByPlaced(c))) == Insert(x.0, Rows(s), ByClause(c))
  {
    if s != [] {
      assert Rows(s)[1..] == Rows(s[1..]);
      InsertForgets(x, s[1..], c);
    }
  }

  lemma {:induction false} SortForgets(s: seq<Placed>, c: Clause)
    ensures Rows(Sort(s, ByPlaced(c))) == Sort(Rows(s), ByClause(c))
  {
    if s != [] {
      SortForgets(s[1..], c);
      InsertForgets(s[0], Sort(s[1..], ByPlaced(c)), c);
      assert Rows(s)[1..] == Rows(s[1..]);
    }
  }

  lemma {:induction false} PassesForget(s: seq<Placed>, clauses: seq<Clause>)
    ensures Rows(PlacedPasses(s, clauses)) == Passes(Rows(s), clauses)
  {
    if clauses != [] {
      PassesForget(s, clauses[1..]);
      SortForgets(PlacedPasses(s, clauses[1..]), clauses[0]);
    }
  }

  lemma PlaceRanks(a: Placed, b: Placed)
    ensures RankOf([])(a, b) == (a.1 < b.1)
  {
    assert Ranked([], a.0, b.0, a.1 < b.1) == (a.1 < b.1);
  }

  lemma {:induction false} PlacedRows(rows: seq<Row>, from: nat)
    ensures Rows(Place(rows, from)) == rows
  {
    if rows != [] {
      PlacedRows(rows[1..], from + 1);
      assert Place(rows, from)[1..] == Place(rows[1..], from + 1);
    }
  }

  lemma {:induction false} PlacedAt(rows: seq<Row>, from: nat, i: nat)
    requires i < |rows|
    ensures |Place(rows, from)| == |rows| && Place(rows, from)[i].1 == from + i
    decreases |rows|
  {
    if |rows| > 1 { PlacedAt(rows[1..], from + 1, if i > 0 then i - 1 else 0); }
  }

  lemma PlacesAscend(rows: seq<Row>)
    ensures Rows(Place(rows, 0)) == rows && Ordered(RankOf([]), Place(rows, 0))
  {
    PlacedRows(rows, 0);
    var s := Place(rows, 0);
    if rows != [] { PlacedAt(rows, 0, 0); }
    forall i, j | 0 <= i < j < |s| ensures RankOf([])(s[i], s[j]) {
      PlacedAt(rows, 0, i);
      PlacedAt(rows, 0, j);
      PlaceRanks(s[i], s[j]);
    }
  }

  lemma ClausesArePreorders(c: Clause)
    ensures Preorder(ByPlaced(c))
  {
    forall a: Placed, b: Placed ensures ByPlaced(c)(a, b) || ByPlaced(c)(b, a) {
      KeyLeqPreorder(Get(a.0, c.field), Get(b.0, c.field), Null);
    }
    forall a: Placed, b: Placed, d: Placed | ByPlaced(c)(a, b) && ByPlaced(c)(b, d) ensures ByPlaced(c)(a, d) {
      KeyLeqPreorder(Get(a.0, c.field), Get(b.0, c.field), Get(d.0, c.field));
      KeyLeqPreorder(Get(d.0, c.field), Get(b.0, c.field), Get(a.0, c.field));
    }
  }

  lemma {:induction false} PassesRank(s: seq<Placed>, clauses: seq<Clause>)
    requires Ordered(RankOf([]), s)
    ensures Ordered(RankOf(clauses), PlacedPasses(s, clauses)) && multiset(PlacedPasses(s, clauses)) == multiset(s)
  {
    if clauses != [] {
      var before := PlacedPasses(s, clauses[1..]);
      var by0 := ByPlaced(clauses[0]);
      PassesRank(s, clauses[1..]);
      ClausesArePreorders(clauses[0]);
      SortRefines(before, by0, RankOf(clauses[1..]));
      SortKeepsItems(before, by0);
      assert forall a: Placed, b: Placed :: Then(by0, RankOf(clauses[1..]))(a, b) == RankOf(clauses)(a, b);
    }
  }

  lemma {:induction false} RankedOneWay(clauses: seq<Clause>, a: Row, b: Row, tie: bool, back: bool)
    requires Ranked(clauses, a, b, tie) && !(tie && back)
    ensures !Ranked(clauses, b, a, back)
  {
    if clauses != [] && RowLeq(clauses[0], b, a) { RankedOneWay(clauses[1..], a, b, tie, back); }
  }

  lemma RankIsAsymmetric(clauses: seq<Clause>)
    ensures Asymmetric(RankOf(clauses))
  {
    forall a: Placed, b: Placed | RankOf(clauses)(a, b) ensures !RankOf(clauses)(b, a) {
      RankedOneWay(clauses, a.0, b.0, a.1 < b.1, b.1 < a.1);
    }
  }

  /**
   The rows come out ordered by all clauses lexicographically, ties in original order, nothing added or lost; and no
   other arrangement satisfies that, so it does not matter which stable sort is used.
   */
  lemma OrderIsLexicographic(rows: seq<Row>, clauses: seq<Clause>, t: seq<Placed>)
    ensures var all := PlacedPasses(Place(rows, 0), clauses);
            Rows(all) == Passes(rows, clauses)
            && (t == all <==>
                  && multiset(t) == multiset(Place(rows, 0))
                  && forall i, j :: 0 <= i < j < |t| ==> Ranked(clauses, t[i].0, t[j].0, t[i].1 < t[j].1))
  {
    var s := Place(rows, 0);
    var all := PlacedPasses(s, clauses);
    PlacesAscend(rows);
    PassesForget(s, clauses);
    PassesRank(s, clauses);
    RankIsAsymmetric(clauses);
    assert Ordered(RankOf(clauses), t) <==> forall i, j :: 0 <= i < j < |t| ==>
           Ranked(clauses, t[i].0, t[j].0, t[i].1 < t[j].1);
    if multiset(t) == multiset(s) && Ordered(RankOf(clauses), t) {
      OrderedIsUnique(RankOf(clauses), t, all);
    }
  }

  // ---------------------------------------------------------------- the order, cell by cell

  /** The first clause on which the two rows have different cells, or the number of clauses if there is none. */
  predicate DifferFirstAt(clauses: seq<Clause>, a: Row, b: Row, k: int) {
    && 0 <= k <= |clauses|
    && (forall m :: 0 <= m < k ==> Get(a, clauses[m].field) == Get(b, clauses[m].field))
    && (k < |clauses| ==> Get(a, clauses[k].field) != Get(b, clauses[k].field))
  }

  /** Smaller numbers first, texts by code point, a missing cell after everything else. */
  ghost predicate CellBefore(x: Value, y: Value) {
    match (x, y)
    case (Num(m), Num(n)) => m < n
    case (Text(s), Text(t)) => TextBefore(s, t)
    case (Null, _) => false
    case (_, Null) => true
    case _ => false
  }

  /** Decided by the first clause whose cells differ, the other way round if it descends; ties as before. */
  ghost predicate CellsRank(clauses: seq<Clause>, a: Placed, b: Placed) {
    exists k :: DifferFirstAt(clauses, a.0, b.0, k) && RankedAt(clauses, a, b, k)
  }

  ghost predicate RankedAt(clauses: seq<Clause>, a: Placed, b: Placed, k: int) {
    if 0 <= k < |clauses| then
      var x, y := Get(a.0, clauses[k].field), Get(b.0, clauses[k].field);
      if clauses[k].desc then CellBefore(y, x) else CellBefore(x, y)
    else a.1 < b.1
  }

  predicate Comparable(x: Value, y: Value) { !(x.Num? && y.Text?) && !(x.Text? && y.Num?) }

  predicate AllComparable(clauses: seq<Clause>, a: Row, b: Row) {
    forall c :: c in clauses ==> Comparable(Get(a, c.field), Get(b, c.field))
  }

  lemma KeysAreCells(x: Value, y: Value)
    requires Comparable(x, y)
    ensures KeyLeq(x, y) <==> x == y || CellBefore(x, y)
    ensures KeyLeq(x, y) && KeyLeq(y, x) <==> x == y
  {
    if x.Text? && y.Text? {
      LeqMeans(x.s, y.s);
      TextBeforeMeans(x.s, y.s);
      TextBeforeMeans(y.s, x.s);
      if Leq(x.s, y.s) && Leq(y.s, x.s) { LeqAntisymmetric(x.s, y.s); }
    }
  }

  lemma {:induction false} RankedMeans(clauses: seq<Clause>, a: Placed, b: Placed)
    requires AllComparable(clauses, a.0, b.0)
    ensures Ranked(clauses, a.0, b.0, a.1 < b.1) <==> CellsRank(clauses, a, b)
    decreases |clauses|
  {
    if clauses == [] {
      assert DifferFirstAt(clauses, a.0, b.0, 0);
    } else {
      var c := clauses[0];
      var x, y := Get(a.0, c.field), Get(b.0, c.field);
      assert c in clauses && forall d :: d in clauses[1..] ==> d in clauses;
      KeysAreCells(x, y);
      KeysAreCells(y, x);
      RankedMeans(clauses[1..], a, b);
      if x == y {
        RankLater(clauses, a, b);
      } else {
        RankFirst(clauses, a, b);
      }
    }
  }

  lemma RankFirst(clauses: seq<Clause>, a: Placed, b: Placed)
    requires clauses != [] && Get(a.0, clauses[0].field) != Get(b.0, clauses[0].field)
    ensures CellsRank(clauses, a, b) <==>
              var x, y := Get(a.0, clauses[0].field), Get(b.0, clauses[0].field);
              if clauses[0].desc then CellBefore(y, x) else CellBefore(x, y)
  {
    assert DifferFirstAt(clauses, a.0, b.0, 0);
    assert forall k :: DifferFirstAt(clauses, a.0, b.0, k) ==> k == 0;
  }

  lemma DifferLater(clauses: seq<Clause>, a: Row, b: Row, k: int)
    requires clauses != [] && Get(a, clauses[0].field) == Get(b, clauses[0].field)
    ensures DifferFirstAt(clauses[1..], a, b, k) <==> k >= 0 && DifferFirstAt(clauses, a, b, k + 1)
  {
    var rest := clauses[1..];
    if DifferFirstAt(rest, a, b, k) { assert forall m :: 1 <= m < k + 1 ==> clauses[m] == rest[m - 1]; }
    if k >= 0 && DifferFirstAt(clauses, a, b, k + 1) {
      assert forall m :: 0 <= m < k ==> rest[m] == clauses[m + 1];
    }
  }

  lemma RankLater(clauses: seq<Clause>, a: Placed, b: Placed)
    requires clauses != [] && Get(a.0, clauses[0].field) == Get(b.0, clauses[0].field)
    ensures CellsRank(clauses, a, b) <==> CellsRank(clauses[1..], a, b)
  {
    forall k ensures DifferFirstAt(clauses[1..], a.0, b.0, k) <==> k >= 0 && DifferFirstAt(clauses, a.0, b.0, k + 1) {
      DifferLater(clauses, a.0, b.0, k);
    }
    if k :| DifferFirstAt(clauses, a.0, b.0, k) && RankedAt(clauses, a, b, k) {
      assert DifferFirstAt(clauses[1..], a.0, b.0, k - 1) && RankedAt(clauses[1..], a, b, k - 1);
    }
    if k :| DifferFirstAt(clauses[1..], a.0, b.0, k) && RankedAt(clauses[1..], a, b, k) {
      assert DifferFirstAt(clauses, a.0, b.0, k + 1) && RankedAt(clauses, a, b, k + 1);
    }
  }

  lemma {:induction false} SortableRowsCompare(rows: seq<Row>, clauses: seq<Clause>, a: Row, b: Row)
    requires AllSortable(rows, clauses) && a in rows && b in rows
    ensures AllComparable(clauses, a, b)
    decreases |clauses|
  {
    if clauses != [] {
      SortableRowsCompare(rows, clauses[1..], a, b);
      assert clauses == [clauses[0]] + clauses[1..];
      assert Comparable(Get(a, clauses[0].field), Get(b, clauses[0].field)) by {
        var i :| 0 <= i < |rows| && rows[i] == a;
        var j :| 0 <= j < |rows| && rows[j] == b;
      }
    }
  }

  lemma {:induction false} PlacedAreRows(rows: seq<Row>, from: nat, p: Placed)
    requires p in Place(rows, from)
    ensures p.0 in rows
    decreases |rows|
  {
    if rows != [] && p != Place(rows, from)[0] { PlacedAreRows(rows[1..], from + 1, p); }
  }

  /**
   The order of the result on the cells alone: of two rows the first clause whose cells differ decides, numbers by size
   and texts by code point, missing cells last, all of it reversed if the clause descends; if no clause tells them apart
   they keep their order. The result is the one arrangement of the rows of which this holds.
   */
  lemma OrderIsByCells(rows: seq<Row>, clauses: seq<Clause>, t: seq<Placed>)
    requires AllSortable(rows, clauses)
    ensures Rows(PlacedPasses(Place(rows, 0), clauses)) == Passes(rows, clauses)
    ensures t == PlacedPasses(Place(rows, 0), clauses) <==>
              && multiset(t) == multiset(Place(rows, 0))
              && forall i, j :: 0 <= i < j < |t| ==> CellsRank(clauses, t[i], t[j])
  {
    OrderIsLexicographic(rows, clauses, t);
    if multiset(t) == multiset(Place(rows, 0)) {
      forall i, j | 0 <= i < j < |t|
        ensures Ranked(clauses, t[i].0, t[j].0, t[i].1 < t[j].1) <==> CellsRank(clauses, t[i], t[j])
      {
        assert t[i] in multiset(t) && t[j] in multiset(t);
        PlacedAreRows(rows, 0, t[i]);
        PlacedAreRows(rows, 0, t[j]);
        SortableRowsCompare(rows, clauses, t[i].0, t[j].0);
        RankedMeans(clauses, t[i], t[j]);
      }
    }
  }

  /** The loop gives no order exactly when some clause meets a number in one row and a text in another. */
  lemma {:induction false} UnsortableExactlyWhen(rows: seq<Row>, clauses: seq<Clause>)
    ensures !AllSortable(rows, clauses) <==>
              exists c, a, b :: c in clauses && a in rows && b in rows && Get(a, c.field).Num? && Get(b, c.field).Text?
    decreases |clauses|
  {
    if clauses != [] {
      UnsortableExactlyWhen(rows, clauses[1..]);
      assert clauses == [clauses[0]] + clauses[1..];
      if !Sortable(rows, clauses[0]) {
        var i, j :| 0 <= i < |rows| && 0 <= j < |rows| && Get(rows[i], clauses[0].field).Num? &&
          Get(rows[j], clauses[0].field).Text?;
        assert rows[i] in rows && rows[j] in rows;
      }
    }
  }
}
