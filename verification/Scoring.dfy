/** The evaluation metrics: confusion matrices, precision and recall by band, macro F1 and nearest-rank
    percentiles, over any list of scored cases. Rates are exact. */
module Scoring {
  import opened Relational
  import opened Seqs
  import opened Wrappers

  type Band = b: int | 1 <= b <= 5 witness 1

  datatype Category =
    | Scanning | BruteForce | Reconnaissance | SuccessfulIntrusion | MalwareDelivery | PersistenceAttempt
      | OtherCategory

  datatype Judgement = Judgement(severity: Band, category: Category, escalate: bool)

  /** A failed case has no verdict. */
  datatype Case = Case(expected: Judgement, verdict: Option<Judgement>, escalated: bool)

  function Count(results: seq<Case>, p: Case -> bool): nat {
    if results == [] then 0
    else Count(results[..|results| - 1], p) + if p(results[|results| - 1]) then 1 else 0
  }

  lemma CountPush(results: seq<Case>, c: Case, p: Case -> bool)
    ensures Count(results + [c], p) == Count(results, p) + if p(c) then 1 else 0
  {
    Halves(results, [c]);
  }

  // ---- What a case counts for. ----

  /** The predicted column: the verdict's band, or the sixth for a failure. */
  function Column(c: Case): (j: int)
    ensures 1 <= j <= 6
  {
    if c.verdict.Some? then c.verdict.value.severity else 6
  }

  function InCell(i: int, j: int): Case -> bool { (c: Case) => c.expected.severity == i && Column(c) == j }
  function Labeled(b: int): Case -> bool { (c: Case) => c.expected.severity == b }
  function Predicted(b: int): Case -> bool { (c: Case) => c.verdict.Some? && c.verdict.value.severity == b }
  function Hit(b: int): Case -> bool { (c: Case) => Labeled(b)(c) && Predicted(b)(c) }

  function Off(c: Case): nat
    requires c.verdict.Some?
  {
    var d := c.verdict.value.severity - c.expected.severity;
    if d < 0 then -d else d
  }

  predicate Exact(c: Case) { c.verdict.Some? && Off(c) == 0 }
  predicate WithinOne(c: Case) { c.verdict.Some? && Off(c) <= 1 }
  predicate CategoryMatch(c: Case) { c.verdict.Some? && c.verdict.value.category == c.expected.category }

  function Cell(results: seq<Case>, i: int, j: int): nat { Count(results, InCell(i, j)) }

  // ---- The matrices. ----

  method Confusion(results: seq<Case>) returns (m: seq<seq<nat>>)
    ensures |m| == 5 && forall i :: 0 <= i < 5 ==> |m[i]| == 6
    ensures forall i, j :: 0 <= i < 5 && 0 <= j < 6 ==> m[i][j] == Cell(results, i + 1, j + 1)
  {
    m := seq(5, i => seq(6, j => 0));
    var k := 0;
    while k < |results|
      invariant 0 <= k <= |results| && |m| == 5 && forall i :: 0 <= i < 5 ==> |m[i]| == 6
      invariant forall i, j :: 0 <= i < 5 && 0 <= j < 6 ==> m[i][j] == Cell(results[..k], i + 1, j + 1)
    {
      var c := results[k];
      var i, j := c.expected.severity - 1, if c.verdict.None? then 5 else c.verdict.value.severity - 1;
      CellsPush(results[..k], c);
      assert results[..k + 1] == results[..k] + [c];
      m := m[i := m[i][j := m[i][j] + 1]];
      k := k + 1;
    }
    assert results[..k] == results;
  }

  lemma CellsPush(results: seq<Case>, c: Case)
    ensures forall i, j :: Cell(results + [c], i, j)
                        == Cell(results, i, j) + if i == c.expected.severity && j == Column(c) then 1 else 0
  {
    forall i, j
      ensures Cell(results + [c], i, j)
              == Cell(results, i, j) + if i == c.expected.severity && j == Column(c) then 1 else 0
    {
      CountPush(results, c, InCell(i, j));
    }
  }

  function Row(results: seq<Case>, i: int): nat {
    Cell(results, i, 1) + Cell(results, i, 2) + Cell(results, i, 3) + Cell(results, i, 4) + Cell(results, i, 5)
      + Cell(results, i, 6)
  }

  function ColumnSum(results: seq<Case>, j: int): nat {
    Cell(results, 1, j) + Cell(results, 2, j) + Cell(results, 3, j) + Cell(results, 4, j) + Cell(results, 5, j)
  }

  function Trace(results: seq<Case>): nat {
    Cell(results, 1, 1) + Cell(results, 2, 2) + Cell(results, 3, 3) + Cell(results, 4, 4) + Cell(results, 5, 5)
  }

  function OffDiagonals(results: seq<Case>): nat {
    Cell(results, 1, 2) + Cell(results, 2, 3) + Cell(results, 3, 4) + Cell(results, 4, 5)
    + Cell(results, 2, 1) + Cell(results, 3, 2) + Cell(results, 4, 3) + Cell(results, 5, 4)
  }

  /** By band: support is the row sum, predictions the column sum, hits the diagonal. */
  lemma {:induction false} BandsAreSums(results: seq<Case>, b: int)
    requires 1 <= b <= 5
    ensures Count(results, Labeled(b)) == Row(results, b)
    ensures Count(results, Predicted(b)) == ColumnSum(results, b)
    ensures Count(results, Hit(b)) == Cell(results, b, b)
  {
    if results != [] {
      var front, last := results[..|results| - 1], results[|results| - 1];
      assert results == front + [last];
      BandsAreSums(front, b);
      CellsPush(front, last);
      CountPush(front, last, Labeled(b));
      CountPush(front, last, Predicted(b));
      CountPush(front, last, Hit(b));
      hide Count, Cell;
    }
  }

  lemma CellPush(results: seq<Case>, c: Case, i: int, j: int)
    ensures Cell(results + [c], i, j)
            == Cell(results, i, j) + if i == c.expected.severity && j == Column(c) then 1 else 0
  {
    CountPush(results, c, InCell(i, j));
  }

  lemma TracePush(results: seq<Case>, c: Case)
    ensures Trace(results + [c]) == Trace(results) + if Exact(c) then 1 else 0
  {
    CellPush(results, c, 1, 1);
    CellPush(results, c, 2, 2);
    CellPush(results, c, 3, 3);
    CellPush(results, c, 4, 4);
    CellPush(results, c, 5, 5);
    hide Cell;
  }

  lemma OffDiagonalsPush(results: seq<Case>, c: Case)
    ensures OffDiagonals(results + [c]) == OffDiagonals(results) + if WithinOne(c) && !Exact(c) then 1 else 0
  {
    CellPush(results, c, 1, 2);
    CellPush(results, c, 2, 3);
    CellPush(results, c, 3, 4);
    CellPush(results, c, 4, 5);
    CellPush(results, c, 2, 1);
    CellPush(results, c, 3, 2);
    CellPush(results, c, 4, 3);
    CellPush(results, c, 5, 4);
    hide Cell;
  }

  /** Over all: exact is the trace, within one the tri-diagonal. */
  lemma {:induction false} RatesAreDiagonals(results: seq<Case>)
    ensures Count(results, Exact) == Trace(results)
    ensures Count(results, WithinOne) == Trace(results) + OffDiagonals(results)
  {
    if results != [] {
      var front, last := results[..|results| - 1], results[|results| - 1];
      assert results == front + [last];
      RatesAreDiagonals(front);
      TracePush(front, last);
      OffDiagonalsPush(front, last);
      CountPush(front, last, Exact);
      CountPush(front, last, WithinOne);
      hide Count, Trace, OffDiagonals;
    }
  }

  /** And every case has one row and one column. */
  lemma {:induction false} CellsAreTheCases(results: seq<Case>)
    ensures |results| == Count(results, Labeled(1)) + Count(results, Labeled(2)) + Count(results, Labeled(3))
                         + Count(results, Labeled(4)) + Count(results, Labeled(5))
    ensures |results| == Row(results, 1) + Row(results, 2) + Row(results, 3) + Row(results, 4) + Row(results, 5)
  {
    if results != [] {
      var front, last := results[..|results| - 1], results[|results| - 1];
      assert results == front + [last];
      CellsAreTheCases(front);
      CountPush(front, last, Labeled(1));
      CountPush(front, last, Labeled(2));
      CountPush(front, last, Labeled(3));
      CountPush(front, last, Labeled(4));
      CountPush(front, last, Labeled(5));
    }
    BandsAreSums(results, 1);
    BandsAreSums(results, 2);
    BandsAreSums(results, 3);
    BandsAreSums(results, 4);
    BandsAreSums(results, 5);
    hide Count, Row;
  }

  // ---- Precision and recall by band. ----

  datatype PR = PR(precision: real, recall: real, support: nat)

  function Ratio(a: nat, b: nat): real { if b == 0 then 0.0 else a as real / b as real }

  /** `x` is the share `a` of `b`, and nothing of nothing. */
  ghost predicate IsShare(x: real, a: nat, b: nat) {
    if b == 0 then x == 0.0 else x * b as real == a as real
  }

  lemma RatioIsShare(a: nat, b: nat)
    ensures IsShare(Ratio(a, b), a, b)
  {}

  function BandPR(results: seq<Case>, b: int): PR {
    var hits := Count(results, Hit(b));
    PR(Ratio(hits, Count(results, Predicted(b))), Ratio(hits, Count(results, Labeled(b))), Count(results, Labeled(b)))
  }

  const NONE_YET: map<int, nat> := map[1 := 0, 2 := 0, 3 := 0, 4 := 0, 5 := 0]

  /** A count for every band. */
  ghost predicate Tally(m: map<int, nat>, results: seq<Case>, p: int -> Case -> bool) {
    && (forall b :: b in m <==> 1 <= b <= 5)
    && (forall b :: b in m ==> m[b] == Count(results, p(b)))
  }

  lemma TallyOne(m: map<int, nat>, results: seq<Case>, p: int -> Case -> bool, c: Case, b: Band)
    requires Tally(m, results, p) && forall x :: 1 <= x <= 5 ==> (p(x)(c) <==> x == b)
    ensures b in m && Tally(m[b := m[b] + 1], results + [c], p)
  {
    hide Count;
    forall x | 1 <= x <= 5
      ensures Count(results + [c], p(x)) == Count(results, p(x)) + if x == b then 1 else 0
    {
      CountPush(results, c, p(x));
    }
  }

  lemma TallyNone(m: map<int, nat>, results: seq<Case>, p: int -> Case -> bool, c: Case)
    requires Tally(m, results, p) && forall x :: 1 <= x <= 5 ==> !p(x)(c)
    ensures Tally(m, results + [c], p)
  {
    hide Count;
    forall x | 1 <= x <= 5
      ensures Count(results + [c], p(x)) == Count(results, p(x))
    {
      CountPush(results, c, p(x));
    }
  }

  lemma NothingTallied()
    ensures Tally(NONE_YET, [], Labeled) && Tally(NONE_YET, [], Hit) && Tally(NONE_YET, [], Predicted)
  {}

  method CountBands(results: seq<Case>)
    returns (support: map<int, nat>, truePositive: map<int, nat>, predicted: map<int, nat>)
    ensures Tally(support, results, Labeled) && Tally(truePositive, results, Hit)
            && Tally(predicted, results, Predicted)
  {
    support, truePositive, predicted := NONE_YET, NONE_YET, NONE_YET;
    NothingTallied();
    hide Tally, Count;
    var k := 0;
    assert results[..k] == [];
    while k < |results|
      invariant 0 <= k <= |results|
      invariant Tally(support, results[..k], Labeled) && Tally(predicted, results[..k], Predicted)
      invariant Tally(truePositive, results[..k], Hit)
    {
      var c := results[k];
      var band := c.expected.severity;
      assert results[..k + 1] == results[..k] + [c];
      TallyOne(support, results[..k], Labeled, c, band);
      support := support[band := support[band] + 1];
      if c.verdict.Some? {
        var column := c.verdict.value.severity;
        TallyOne(predicted, results[..k], Predicted, c, column);
        predicted := predicted[column := predicted[column] + 1];
        if column == band {
          TallyOne(truePositive, results[..k], Hit, c, band);
          truePositive := truePositive[band := truePositive[band] + 1];
        } else {
          TallyNone(truePositive, results[..k], Hit, c);
        }
      } else {
        TallyNone(predicted, results[..k], Predicted, c);
        TallyNone(truePositive, results[..k], Hit, c);
      }
      k := k + 1;
    }
    assert results[..k] == results;
  }

  method PerSeverity(results: seq<Case>) returns (bands: map<int, PR>)
    ensures forall b :: b in bands <==> 1 <= b <= 5
    ensures forall b :: b in bands ==> bands[b] == BandPR(results, b)
    ensures forall b :: b in bands ==> IsShare(bands[b].precision, Count(results, Hit(b)), Count(results, Predicted(b)))
    ensures forall b :: b in bands ==> IsShare(bands[b].recall, Count(results, Hit(b)), bands[b].support)
    ensures forall b :: b in bands ==> bands[b].support == Count(results, Labeled(b))
  {
    var support, truePositive, predicted := CountBands(results);
    hide Count;
    bands := map b | b in support ::
               PR(Ratio(truePositive[b], predicted[b]), Ratio(truePositive[b], support[b]), support[b]);
    forall b | b in bands
      ensures IsShare(bands[b].precision, Count(results, Hit(b)), Count(results, Predicted(b)))
      ensures IsShare(bands[b].recall, Count(results, Hit(b)), bands[b].support)
    {
      RatioIsShare(truePositive[b], predicted[b]);
      RatioIsShare(truePositive[b], support[b]);
      hide IsShare, Ratio;
    }
  }

  /** A failed case's column is `None`. */
  function CategoryColumn(c: Case): Option<Category> {
    if c.verdict.Some? then Some(c.verdict.value.category) else None
  }

  function InCategories(x: Category, y: Option<Category>): Case -> bool {
    (c: Case) => c.expected.category == x && CategoryColumn(c) == y
  }

  const CATEGORIES: set<Category> := {
    Scanning, BruteForce, Reconnaissance, SuccessfulIntrusion, MalwareDelivery, PersistenceAttempt, OtherCategory
  }

  type CategoryMatrix = map<Category, map<Option<Category>, nat>>

  /** Every cell is there, and counts its cases. */
  ghost predicate Tabulates(m: CategoryMatrix, results: seq<Case>) {
    forall x, y :: Tabulated(m, results, x, y)
  }

  predicate Tabulated(m: CategoryMatrix, results: seq<Case>, x: Category, y: Option<Category>) {
    x in m && y in m[x] && m[x][y] == Count(results, InCategories(x, y))
  }

  lemma AllCategories(x: Category)
    ensures x in CATEGORIES
  {
    match x
    case Scanning => case BruteForce => case Reconnaissance => case SuccessfulIntrusion =>
    case MalwareDelivery => case PersistenceAttempt => case OtherCategory =>
  }

  function Zeroes(): CategoryMatrix {
    var columns := {None} + set y | y in CATEGORIES :: Some(y);
    map x | x in CATEGORIES :: map y | y in columns :: 0
  }

  lemma ZeroesTabulate()
    ensures Tabulates(Zeroes(), [])
  {
    forall x: Category, y: Option<Category>
      ensures Tabulated(Zeroes(), [], x, y)
    {
      AllCategories(x);
      if y.Some? {
        AllCategories(y.value);
      }
    }
  }

  lemma TabulatesPush(m: CategoryMatrix, results: seq<Case>, c: Case)
    requires Tabulates(m, results)
    ensures var (x, y) := (c.expected.category, CategoryColumn(c));
      x in m && y in m[x] && Tabulates(m[x := m[x][y := m[x][y] + 1]], results + [c])
  {
    var cx, cy := c.expected.category, CategoryColumn(c);
    assert Tabulated(m, results, cx, cy);
    var after := m[cx := m[cx][cy := m[cx][cy] + 1]];
    forall x, y
      ensures Tabulated(after, results + [c], x, y)
    {
      CountPush(results, c, InCategories(x, y));
      assert Tabulated(m, results, x, y);
      hide Count;
    }
  }

  method CategoryConfusion(results: seq<Case>) returns (m: CategoryMatrix)
    ensures Tabulates(m, results)
  {
    m := Zeroes();
    ZeroesTabulate();
    hide Tabulates, Zeroes;
    var k := 0;
    assert results[..k] == [];
    while k < |results|
      invariant 0 <= k <= |results| && Tabulates(m, results[..k])
    {
      var c := results[k];
      assert results[..k + 1] == results[..k] + [c];
      TabulatesPush(m, results[..k], c);
      var x, y := c.expected.category, CategoryColumn(c);
      m := m[x := m[x][y := m[x][y] + 1]];
      k := k + 1;
    }
    assert results[..k] == results;
  }

  /** The diagonal of the category matrix is the category matches. */
  lemma {:induction false} CategoryDiagonal(results: seq<Case>)
    ensures Count(results, CategoryMatch)
         == Diagonal(results, Scanning) + Diagonal(results, BruteForce) + Diagonal(results, Reconnaissance)
            + Diagonal(results, SuccessfulIntrusion) + Diagonal(results, MalwareDelivery)
            + Diagonal(results, PersistenceAttempt) + Diagonal(results, OtherCategory)
  {
    if results != [] {
      var front, last := results[..|results| - 1], results[|results| - 1];
      assert results == front + [last];
      CategoryDiagonal(front);
      CountPush(front, last, CategoryMatch);
      DiagonalPush(front, last, Scanning);
      DiagonalPush(front, last, BruteForce);
      DiagonalPush(front, last, Reconnaissance);
      DiagonalPush(front, last, SuccessfulIntrusion);
      DiagonalPush(front, last, MalwareDelivery);
      DiagonalPush(front, last, PersistenceAttempt);
      DiagonalPush(front, last, OtherCategory);
      hide Count, Diagonal;
    }
  }

  function Diagonal(results: seq<Case>, x: Category): nat { Count(results, InCategories(x, Some(x))) }

  lemma DiagonalPush(results: seq<Case>, c: Case, x: Category)
    ensures Diagonal(results + [c], x)
            == Diagonal(results, x) + if CategoryMatch(c) && c.expected.category == x then 1 else 0
  {
    CountPush(results, c, InCategories(x, Some(x)));
  }
}
