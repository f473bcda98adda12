/** The rates, the macro F1 and the nearest-rank percentile of an evaluation run. */
module Metrics {
  import opened Relational
  import opened Scoring
  import opened Seqs
  import opened Wrappers

  // ---- Rates. ----

  predicate Escalates(c: Case) { c.verdict.Some? && c.verdict.value.escalate }
  predicate ShouldEscalate(c: Case) { c.expected.escalate }
  predicate RightlyEscalates(c: Case) { Escalates(c) && ShouldEscalate(c) }
  predicate Critical(c: Case) { c.expected.severity >= 4 }
  predicate CriticalHit(c: Case) { Critical(c) && c.verdict.Some? && c.verdict.value.severity >= 4 }
  predicate Routed(c: Case) { c.escalated }

  datatype Rates = Rates(
    severityExact: real, severityWithinOne: real, categoryAccuracy: real, escalatePrecision: real,
    escalateRecall: real, criticalRecall: real, escalationRate: real)

  datatype Tallies = Tallies(
    exact: nat, withinOne: nat, category: nat, predicted: nat, truePositive: nat, labeled: nat,
    critical: nat, hit: nat, routed: nat)

  function TalliesOf(results: seq<Case>): Tallies {
    Tallies(Count(results, Exact), Count(results, WithinOne), Count(results, CategoryMatch), Count(results, Escalates),
            Count(results, RightlyEscalates), Count(results, ShouldEscalate), Count(results, Critical),
            Count(results, CriticalHit), Count(results, Routed))
  }

  function One(b: bool): nat { if b then 1 else 0 }

  function Added(t: Tallies, c: Case): Tallies {
    Tallies(t.exact + One(Exact(c)), t.withinOne + One(WithinOne(c)), t.category + One(CategoryMatch(c)),
            t.predicted + One(Escalates(c)), t.truePositive + One(RightlyEscalates(c)),
            t.labeled + One(ShouldEscalate(c)),
            t.critical + One(Critical(c)), t.hit + One(CriticalHit(c)), t.routed + One(Routed(c)))
  }

  lemma TalliesPush(results: seq<Case>, c: Case)
    ensures TalliesOf(results + [c]) == Added(TalliesOf(results), c)
  {
    CountPush(results, c, Exact);
    CountPush(results, c, WithinOne);
    CountPush(results, c, CategoryMatch);
    CountPush(results, c, Escalates);
    CountPush(results, c, RightlyEscalates);
    CountPush(results, c, ShouldEscalate);
    CountPush(results, c, Critical);
    CountPush(results, c, CriticalHit);
    CountPush(results, c, Routed);
    hide Count;
  }

  /** One case of the pass. */
  method AddCase(before: Tallies, c: Case) returns (t: Tallies)
    ensures t == Added(before, c)
  {
    t := before;
    if c.verdict.Some? {
      var v := c.verdict.value;
      var diff := Off(c);
      if diff == 0 {
        t := t.(exact := t.exact + 1);
      }
      if diff <= 1 {
        t := t.(withinOne := t.withinOne + 1);
      }
      if v.category == c.expected.category {
        t := t.(category := t.category + 1);
      }
      if v.escalate {
        t := t.(predicted := t.predicted + 1);
        if c.expected.escalate {
          t := t.(truePositive := t.truePositive + 1);
        }
      }
    }
    if c.expected.escalate {
      t := t.(labeled := t.labeled + 1);
    }
    if c.expected.severity >= 4 {
      t := t.(critical := t.critical + 1);
      if c.verdict.Some? && c.verdict.value.severity >= 4 {
        t := t.(hit := t.hit + 1);
      }
    }
    if c.escalated {
      t := t.(routed := t.routed + 1);
    }
  }

  /** The severity rates are the confusion matrix's diagonals over the cases. */
  method Score(results: seq<Case>) returns (t: Tallies, r: Rates)
    ensures t == TalliesOf(results)
    ensures IsShare(r.severityExact, Trace(results), |results|)
    ensures IsShare(r.severityWithinOne, Trace(results) + OffDiagonals(results), |results|)
    ensures IsShare(r.categoryAccuracy, t.category, |results|) && IsShare(r.escalationRate, t.routed, |results|)
    ensures IsShare(r.escalatePrecision, t.truePositive, t.predicted)
    ensures IsShare(r.escalateRecall, t.truePositive, t.labeled) && IsShare(r.criticalRecall, t.hit, t.critical)
  {
    t := Tallies(0, 0, 0, 0, 0, 0, 0, 0, 0);
    assert t == TalliesOf([]);
    hide Count, Added, Trace, OffDiagonals, Ratio, IsShare;
    var k := 0;
    assert results[..k] == [];
    while k < |results|
      invariant 0 <= k <= |results| && t == TalliesOf(results[..k])
    {
      assert results[..k + 1] == results[..k] + [results[k]];
      TalliesPush(results[..k], results[k]);
      t := AddCase(t, results[k]);
      k := k + 1;
    }
    assert results[..k] == results;
    RatesAreDiagonals(results);
    var n := |results|;
    r := Rates(Ratio(t.exact, n), Ratio(t.withinOne, n), Ratio(t.category, n), Ratio(t.truePositive, t.predicted),
               Ratio(t.truePositive, t.labeled), Ratio(t.hit, t.critical), Ratio(t.routed, n));
    RatioIsShare(t.exact, n);
    RatioIsShare(t.withinOne, n);
    RatioIsShare(t.category, n);
    RatioIsShare(t.truePositive, t.predicted);
    RatioIsShare(t.truePositive, t.labeled);
    RatioIsShare(t.hit, t.critical);
    RatioIsShare(t.routed, n);
  }

  lemma {:induction false} CountWithin(results: seq<Case>, p: Case -> bool, q: Case -> bool)
    requires forall c :: p(c) ==> q(c)
    ensures Count(results, p) <= Count(results, q) <= |results|
    ensures Count(results, p) == Count(results, q) ==> forall c :: c in results && q(c) ==> p(c)
  {
    if results != [] {
      var front, last := results[..|results| - 1], results[|results| - 1];
      CountWithin(front, p, q);
      assert results == front + [last];
    }
  }

  lemma {:induction false} CountSame(results: seq<Case>, p: Case -> bool, q: Case -> bool)
    requires forall c :: c in results ==> p(c) == q(c)
    ensures Count(results, p) == Count(results, q)
  {
    if results != [] {
      var front, last := results[..|results| - 1], results[|results| - 1];
      assert results == front + [last];
      CountSame(front, p, q);
    }
  }

  // ---- Macro F1. ----

  /** The harmonic mean of precision and recall. */
  function F1(pr: PR): real {
    var sum := pr.precision + pr.recall;
    if sum == 0.0 then 0.0 else 2.0 * pr.precision * pr.recall / sum
  }

  /** The bands' F1 scores as shares of hits: twice the hits over predictions plus support. */
  function Dice(results: seq<Case>, b: int): real {
    Ratio(2 * Count(results, Hit(b)), Count(results, Predicted(b)) + Count(results, Labeled(b)))
  }

  function Supported(results: seq<Case>, upTo: nat): nat {
    if upTo == 0 then 0 else Supported(results, upTo - 1) + if Count(results, Labeled(upTo)) > 0 then 1 else 0
  }

  function DiceSum(results: seq<Case>, upTo: nat): real {
    if upTo == 0 then 0.0
    else DiceSum(results, upTo - 1) + if Count(results, Labeled(upTo)) > 0 then Dice(results, upTo) else 0.0
  }

  lemma HitsWithin(results: seq<Case>, b: int)
    ensures Count(results, Hit(b)) <= Count(results, Predicted(b))
            && Count(results, Hit(b)) <= Count(results, Labeled(b))
  {
    CountWithin(results, Hit(b), Predicted(b));
    CountWithin(results, Hit(b), Labeled(b));
  }

  lemma HarmonicIsDice(hits: nat, predicted: nat, support: nat)
    requires hits <= predicted && hits <= support && support > 0
    ensures F1(PR(Ratio(hits, predicted), Ratio(hits, support), support)) == Ratio(2 * hits, predicted + support)
  {
    if hits > 0 {
      var h, p, s := hits as real, predicted as real, support as real;
      var precision, recall := h / p, h / s;
      Divide(h, p);
      Divide(h, s);
      Harmonic(precision, recall, p, s, h);
      assert (2 * hits) as real == 2.0 * h && (predicted + support) as real == p + s;
    } else {
      Divide(0.0, support as real);
      Divide(0.0, (predicted + support) as real);
      assert Ratio(hits, support) == 0.0 && Ratio(2 * hits, predicted + support) == 0.0;
    }
  }

  lemma Divide(a: real, b: real)
    requires b > 0.0
    ensures (a / b) * b == a && (a == 0.0 ==> a / b == 0.0)
  {
  }

  lemma Harmonic(precision: real, recall: real, p: real, s: real, h: real)
    requires p > 0.0 && s > 0.0 && h > 0.0 && precision * p == h && recall * s == h
    ensures precision + recall > 0.0 && 2.0 * precision * recall / (precision + recall) == 2.0 * h / (p + s)
  {
    Positive(precision, p, h);
    Positive(recall, s, h);
    var top, sum := 2.0 * precision * recall, precision + recall;
    assert top * p == 2.0 * recall * (precision * p) == 2.0 * recall * h;
    assert top * s == 2.0 * precision * (recall * s) == 2.0 * precision * h;
    assert top * (p + s) == top * p + top * s == 2.0 * h * sum;
    CrossMultiply(top, sum, 2.0 * h, p + s);
  }

  lemma Positive(x: real, p: real, h: real)
    requires p > 0.0 && h > 0.0 && x * p == h
    ensures x > 0.0
  {}

  lemma CrossMultiply(a: real, b: real, c: real, d: real)
    requires b > 0.0 && d > 0.0 && a * d == c * b
    ensures a / b == c / d
  {
    assert (a / b) * b == a;
    assert (c / d) * d == c;
    var x := a / b;
    assert x * b * d == c * b;
    assert (x * d - c) * b == 0.0;
    assert x * d == c;
  }

  method SevMacroF1(results: seq<Case>) returns (f: real)
    ensures f == if Supported(results, 5) == 0 then 0.0 else DiceSum(results, 5) / Supported(results, 5) as real
    ensures 0.0 <= f <= 1.0
    ensures results != [] ==> (f == 1.0 <==> Count(results, Exact) == |results|)
  {
    hide Count, Ratio, F1;
    var bands := PerSeverity(results);
    var sum, n := 0.0, 0;
    var b := 1;
    while b <= 5
      invariant 1 <= b <= 6 && n == Supported(results, b - 1) && sum == DiceSum(results, b - 1)
    {
      HitsWithin(results, b);
      if bands[b].support != 0 {
        HarmonicIsDice(Count(results, Hit(b)), Count(results, Predicted(b)), Count(results, Labeled(b)));
        sum, n := sum + F1(bands[b]), n + 1;
      }
      b := b + 1;
    }
    DiceSumBounds(results, 5);
    Perfection(results);
    hide *;
    f := if n == 0 then 0.0 else sum / n as real;
    Mean(sum, n);
  }

  lemma Mean(sum: real, n: nat)
    requires 0.0 <= sum <= n as real
    ensures n > 0 ==> 0.0 <= sum / n as real <= 1.0 && (sum / n as real == 1.0 <==> sum == n as real)
  {}

  lemma DiceBounds(results: seq<Case>, b: int)
    requires Count(results, Labeled(b)) > 0
    ensures 0.0 <= Dice(results, b) <= 1.0
    ensures Dice(results, b) == 1.0
       <==> Count(results, Hit(b)) == Count(results, Labeled(b)) == Count(results, Predicted(b))
  {
    HitsWithin(results, b);
    hide Count;
    Mean((2 * Count(results, Hit(b))) as real, Count(results, Predicted(b)) + Count(results, Labeled(b)));
  }

  /** A band whose every case is hit, and that no other case was put in. */
  ghost predicate Perfect(results: seq<Case>, b: int) {
    Count(results, Labeled(b)) > 0 ==>
      Count(results, Hit(b)) == Count(results, Labeled(b)) && Count(results, Hit(b)) == Count(results, Predicted(b))
  }

  lemma {:induction false} DiceSumBounds(results: seq<Case>, upTo: nat)
    ensures 0.0 <= DiceSum(results, upTo) <= Supported(results, upTo) as real
    ensures DiceSum(results, upTo) == Supported(results, upTo) as real
            <==> forall b :: 1 <= b <= upTo ==> Perfect(results, b)
  {
    if upTo > 0 {
      DiceSumBounds(results, upTo - 1);
      if Count(results, Labeled(upTo)) > 0 {
        DiceBounds(results, upTo);
        assert Perfect(results, upTo) <==> Dice(results, upTo) == 1.0;
      } else {
        assert Perfect(results, upTo);
      }
      hide Count, Dice, Perfect;
      assert (forall b :: 1 <= b <= upTo ==> Perfect(results, b))
        <==> (forall b :: 1 <= b <= upTo - 1 ==> Perfect(results, b)) && Perfect(results, upTo);
    }
  }

  lemma SupportedIff(results: seq<Case>)
    ensures results != [] ==> Supported(results, 5) > 0
  {
    CellsAreTheCases(results);
    hide Count;
    var labeled := Count(results, Labeled(1)) + Count(results, Labeled(2)) + Count(results, Labeled(3))
                   + Count(results, Labeled(4)) + Count(results, Labeled(5));
    assert Supported(results, 5) == 0 ==> labeled == 0 by {
      assert Supported(results, 1) >= if Count(results, Labeled(1)) > 0 then 1 else 0;
      assert Supported(results, 2) >= Supported(results, 1) && Supported(results, 3) >= Supported(results, 2);
      assert Supported(results, 4) >= Supported(results, 3) && Supported(results, 5) >= Supported(results, 4);
    }
  }

  /** Every band is perfect exactly when every case is exact. */
  lemma Perfection(results: seq<Case>)
    ensures results != [] ==> Supported(results, 5) > 0
    ensures (forall b :: 1 <= b <= 5 ==> Perfect(results, b)) <==> Count(results, Exact) == |results|
  {
    SupportedIff(results);
    if forall b :: 1 <= b <= 5 ==> Perfect(results, b) {
      AllHit(results);
    }
    if Count(results, Exact) == |results| {
      AllExact(results);
    }
  }

  lemma AllHit(results: seq<Case>)
    requires forall b :: 1 <= b <= 5 ==> Perfect(results, b)
    ensures Count(results, Exact) == |results|
  {
    forall b | 1 <= b <= 5
      ensures Count(results, Hit(b)) == Count(results, Labeled(b)) == Cell(results, b, b)
    {
      assert Perfect(results, b);
      HitsWithin(results, b);
      BandsAreSums(results, b);
    }
    hide Count, Cell;
    assert Perfect(results, 1) && Perfect(results, 2) && Perfect(results, 3) && Perfect(results, 4)
      && Perfect(results, 5);
    RatesAreDiagonals(results);
    CellsAreTheCases(results);
  }

  lemma AllExact(results: seq<Case>)
    requires Count(results, Exact) == |results|
    ensures forall b :: 1 <= b <= 5 ==> Perfect(results, b)
  {
    var all := (c: Case) => true;
    CountAll(results);
    CountWithin(results, Exact, all);
    forall b | 1 <= b <= 5
      ensures Perfect(results, b)
    {
      CountSame(results, Hit(b), Labeled(b));
      CountSame(results, Hit(b), Predicted(b));
    }
  }

  lemma {:induction false} CountAll(results: seq<Case>)
    ensures Count(results, (c: Case) => true) == |results|
  {
    if results != [] {
      CountAll(results[..|results| - 1]);
    }
  }

  // ---- Nearest rank. ----

  function Ceil(x: real): int { -((-x).Floor) }

  predicate AtMost(a: real, b: real) { a <= b }

  /** An index from the end when negative, as the original's lists allow. */
  function At(s: seq<real>, i: int): real
    requires -|s| <= i < |s|
  {
    if i < 0 then s[|s| + i] else s[i]
  }

  function RankIndex(n: nat, p: real): int { Ceil(p / 100.0 * n as real) - 1 }

  lemma RankInRange(p: real, n: nat)
    requires 0.0 <= p <= 100.0 && n >= 1
    ensures RankOk(n, p, RankIndex(n, p))
  {
    RankBounds(p, n);
  }

  /** In range from the front, except for the index -1 of p = 0. */
  predicate RankOk(n: nat, p: real, k: int) {
    -1 <= k < n && (k >= 0 <==> p > 0.0)
  }

  lemma RankBounds(p: real, n: nat)
    requires 0.0 <= p <= 100.0 && n >= 1
    ensures RankOk(n, p, RankIndex(n, p))
    ensures 100.0 * RankIndex(n, p) as real < p * n as real <= 100.0 * (RankIndex(n, p) + 1) as real
  {
    var q := p / 100.0;
    assert 0.0 <= q <= 1.0 && q * 100.0 == p;
    Scaled(q, n as real);
    assert 100.0 * (q * n as real) == p * n as real;
  }

  lemma Scaled(q: real, m: real)
    requires 0.0 <= q <= 1.0 && m >= 1.0
    ensures 0.0 <= q * m <= m && (q * m > 0.0 <==> q > 0.0)
  {
    assert (1.0 - q) * m >= 0.0;
  }

  method Percentile(values: seq<real>, p: real) returns (r: real)
    requires 0.0 <= p <= 100.0
    ensures values == [] ==> r == 0.0
    ensures values != [] ==> r in values
    ensures values != [] && p > 0.0 ==> NearestRank(values, p, r)
    ensures values != [] && p == 0.0 ==> forall v :: v in values ==> v <= r
  {
    hide OrderBy, Ceil, RankIndex, NearestRank, TotalOrder, IsSorted, Where;
    if values == [] {
      return 0.0;
    }
    var sorted := OrderBy(values, AtMost);
    SortedValues(values);
    RankInRange(p, |sorted|);
    r := At(sorted, RankIndex(|sorted|, p));
    if p > 0.0 {
      RankedValue(values, sorted, p, RankIndex(|sorted|, p));
    } else {
      LastIsGreatest(values, sorted);
    }
  }

  lemma SortedValues(values: seq<real>)
    ensures var sorted := OrderBy(values, AtMost);
      && IsSorted(sorted, AtMost) && |sorted| == |values| && multiset(sorted) == multiset(values)
      && forall v :: v in sorted <==> v in values
  {
    RealsAreOrdered();
    OrderByFacts(values, AtMost);
  }

  lemma LastIsGreatest(values: seq<real>, sorted: seq<real>)
    requires IsSorted(sorted, AtMost) && sorted != [] && forall v :: v in sorted <==> v in values
    ensures sorted[|sorted| - 1] in values && forall v :: v in values ==> v <= sorted[|sorted| - 1]
  {
    assert sorted[|sorted| - 1] in sorted;
    forall v | v in values
      ensures v <= sorted[|sorted| - 1]
    {
      assert v in sorted;
      var i :| 0 <= i < |sorted| && sorted[i] == v;
      assert i < |sorted| - 1 ==> AtMost(sorted[i], sorted[|sorted| - 1]);
    }
  }

  function Below(r: real): real -> bool { v => v < r }
  function UpTo(r: real): real -> bool { v => v <= r }

  /** At least `p` percent of the values are no greater, and fewer than that are smaller. */
  ghost predicate NearestRank(values: seq<real>, p: real, r: real) {
    100.0 * |Where(values, Below(r))| as real < p * |values| as real <= 100.0 * |Where(values, UpTo(r))| as real
  }

  lemma RealsAreOrdered()
    ensures TotalOrder(AtMost)
  {}

  lemma {:induction false} WhereCounts(s: seq<real>, p: real -> bool, k: nat)
    requires k <= |s|
    ensures (forall i :: 0 <= i < k ==> p(s[i])) ==> |Where(s, p)| >= k
    ensures (forall i :: k <= i < |s| ==> !p(s[i])) ==> |Where(s, p)| <= k
  {
    if s != [] {
      var front, last := s[..|s| - 1], s[|s| - 1];
      if k < |s| {
        WhereCounts(front, p, k);
      } else {
        WhereCounts(front, p, k - 1);
      }
    }
  }

  lemma WherePermuted(a: seq<real>, b: seq<real>, p: real -> bool)
    requires multiset(a) == multiset(b)
    ensures |Where(a, p)| == |Where(b, p)|
  {
    WhereMultiset(a, p);
    WhereMultiset(b, p);
    assert multiset(Where(a, p)) == multiset(Where(b, p));
    assert |multiset(Where(a, p))| == |multiset(Where(b, p))|;
  }

  lemma RankedValue(values: seq<real>, sorted: seq<real>, p: real, k: nat)
    requires k < |sorted| == |values| && IsSorted(sorted, AtMost) && multiset(sorted) == multiset(values)
    requires 0.0 < p <= 100.0 && k == RankIndex(|values|, p)
    ensures NearestRank(values, p, sorted[k]) && sorted[k] in values
  {
    RankBounds(p, |values|);
    hide RankIndex;
    assert sorted[k] in multiset(sorted);
    var r := sorted[k];
    forall i | 0 <= i < |sorted|
      ensures i <= k ==> UpTo(r)(sorted[i])
      ensures k <= i ==> !Below(r)(sorted[i])
    {
      assert i < k ==> AtMost(sorted[i], sorted[k]);
      assert k < i ==> AtMost(sorted[k], sorted[i]);
    }
    WhereCounts(sorted, UpTo(r), k + 1);
    WhereCounts(sorted, Below(r), k);
    WherePermuted(values, sorted, UpTo(r));
    WherePermuted(values, sorted, Below(r));
  }

  /** And nothing else is of nearest rank: the two bounds pin the value down. */
  lemma NearestRankIsUnique(values: seq<real>, p: real, r: real, s: real)
    requires NearestRank(values, p, r) && NearestRank(values, p, s)
    ensures r == s
  {
    if r < s {
      Nested(values, UpTo(r), Below(s));
    } else if s < r {
      Nested(values, UpTo(s), Below(r));
    }
  }

  lemma {:induction false} Nested(values: seq<real>, p: real -> bool, q: real -> bool)
    requires forall v :: p(v) ==> q(v)
    ensures |Where(values, p)| <= |Where(values, q)|
  {
    if values != [] {
      Nested(values[..|values| - 1], p, q);
    }
  }
}
