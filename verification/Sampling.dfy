/** The whole sample: strata, clamp, and the round-robin remainder. */
module Sampling {
  import opened RoundRobin
  import opened Sampler
  import opened Seqs
  import opened Shares

  /** The rows whose case has not been labelled elsewhere. */
  function Eligible(rows: seq<Candidate>, exclude: set<string>): (r: seq<Candidate>)
    ensures forall x :: x in r <==> x in rows && x.caseId !in exclude
  {
    if rows == [] then []
    else
      assert rows == rows[..|rows| - 1] + [rows[|rows| - 1]];
      Eligible(rows[..|rows| - 1], exclude) + if rows[|rows| - 1].caseId in exclude then [] else [rows[|rows| - 1]]
  }

  method EligibleRows(rows: seq<Candidate>, exclude: set<string>) returns (eligible: seq<Candidate>)
    ensures eligible == Eligible(rows, exclude)
  {
    eligible := [];
    var i := 0;
    while i < |rows|
      invariant 0 <= i <= |rows| && eligible == Eligible(rows[..i], exclude)
    {
      assert rows[..i + 1][..i] == rows[..i];
      if rows[i].caseId !in exclude {
        eligible := eligible + [rows[i]];
      }
      i := i + 1;
    }
    assert rows[..i] == rows;
  }

  method MissingFrom(eligible: seq<Candidate>, selected: seq<Candidate>) returns (pool: seq<Candidate>)
    ensures pool == Missing(eligible, selected)
  {
    pool := [];
    var i := 0;
    while i < |eligible|
      invariant 0 <= i <= |eligible| && pool == Missing(eligible[..i], selected)
    {
      assert eligible[..i + 1][..i] == eligible[..i];
      if !HasId(selected, eligible[i].caseId) {
        pool := pool + [eligible[i]];
      }
      i := i + 1;
    }
    assert eligible[..i] == eligible;
  }

  /** What the clamp may leave. */
  ghost predicate ClampOf(selected: seq<Candidate>, n: nat, r: seq<Candidate>) {
    if |selected| <= n then r == selected else |r| == n && multiset(r) <= multiset(selected)
  }

  /** What the draws and the clamp may leave selected. */
  ghost predicate Selection(eligible: seq<Candidate>, n: nat, selected: seq<Candidate>) {
    exists drawn :: Draws(eligible, n, ALL_STRATA, drawn) && ClampOf(drawn, n, selected)
  }

  /** What a shuffle of the leftover groups gives to the places left. */
  function Picks(groups: seq<Group>, n: nat, drawn: nat): seq<Candidate> {
    Filled(groups, Turn(0, 0), if n > drawn then n - drawn else 0)
  }

  /** The sample of one selection and one shuffle of what it leaves. */
  ghost predicate SampleOf(eligible: seq<Candidate>, n: nat, selected: seq<Candidate>, groups: seq<Group>,
                           r: seq<Candidate>)
  {
    && Selection(eligible, n, selected) && |selected| <= n
    && Shuffles(groups, Grouped(Missing(eligible, selected)))
    && r == PutAll(selected, Picks(groups, n, |selected|))
  }

  /** The floors and the cap may exceed the target together; then any `n` of the selection stay. */
  method Clamp(selected: seq<Candidate>, n: nat) returns (r: seq<Candidate>)
    requires Distinct(selected)
    ensures |selected| <= n ==> r == selected
    ensures |selected| > n ==> |r| == n && multiset(r) <= multiset(selected)
    ensures Distinct(r) && Within(r, selected)
  {
    if |selected| <= n {
      return selected;
    }
    r := Draw(selected, n);
    PartFacts(r, selected);
  }

  /** No group of the fill falls behind another while it has anything left. */
  ghost predicate Balanced(fill: seq<Candidate>, r: seq<Candidate>, eligible: seq<Candidate>) {
    forall a, b :: Behind(a, CountKey(fill, a), b, CountKey(fill, b)) ==> CountKey(r, a) == CountKey(eligible, a)
  }

  ghost predicate FloorsMet(eligible: seq<Candidate>, r: seq<Candidate>, n: nat) {
    forall st :: st in ALL_STRATA ==> |Of(r, st)| >= Min(Quota(st, n), |Of(eligible, st)|)
  }

  /** The injection candidates of a sample against their cap. The draw never exceeds it, so it holds when
      there are few enough of them or the floors alone come to the target; where everything eligible
      fits, it holds if and only if there are few enough. */
  ghost predicate InjectionCap(eligible: seq<Candidate>, r: seq<Candidate>, drawn: nat, n: nat)
    requires drawn <= |r|
  {
    && |Of(r[..drawn], Injection)| <= n / 4
    && (|Of(eligible, Injection)| <= n / 4 || Floors(eligible, n, ALL_STRATA) >= n
        ==> |Of(r, Injection)| <= n / 4)
    && (|eligible| <= n ==> (|Of(r, Injection)| <= n / 4 <==> |Of(eligible, Injection)| <= n / 4))
  }

  lemma InjectionCapOf(eligible: seq<Candidate>, selected: seq<Candidate>, r: seq<Candidate>, drawn: nat, n: nat)
    requires Distinct(eligible) && Drawn(eligible, selected, n, ALL_STRATA) && drawn <= |r|
    requires Distinct(r[..drawn]) && Within(r[..drawn], selected)
    requires Distinct(r) && Within(r, eligible) && |r| == Min(n, |eligible|)
    requires drawn == Min(n, Floors(eligible, n, ALL_STRATA))
    ensures InjectionCap(eligible, r, drawn, n)
  {
    hide Of, Floors, Distinct, Within, Drawn;
    DrawnIsWithin(eligible, selected, n);
    DrawnWithinCap(eligible, selected, n);
    IsPart(r[..drawn], selected);
    OfPart(r[..drawn], selected, Injection);
    IsPart(r, eligible);
    OfPart(r, eligible, Injection);
    assert drawn == |r| ==> r[..drawn] == r;
    if |eligible| <= n {
      SameSize(multiset(r), multiset(eligible));
    }
    MinIs(n, |eligible|);
    MinIs(n, Floors(eligible, n, ALL_STRATA));
  }

  lemma DrawnWithinCap(eligible: seq<Candidate>, selected: seq<Candidate>, n: nat)
    requires Distinct(eligible) && Drawn(eligible, selected, n, ALL_STRATA)
    ensures |Of(selected, Injection)| <= n / 4
  {
    assert Injection in ALL_STRATA;
    hide Of;
  }

  lemma SameSize<T>(a: multiset<T>, b: multiset<T>)
    requires a <= b && |a| == |b|
    ensures a == b
  {
    assert b == a + (b - a) && |b| == |a| + |b - a|;
    assert |b - a| == 0;
  }

  lemma IsPart(part: seq<Candidate>, all: seq<Candidate>)
    requires Distinct(part) && Distinct(all) && Within(part, all)
    ensures multiset(part) <= multiset(all)
  {
    forall x
      ensures multiset(part)[x] <= multiset(all)[x]
    {
      Once(part, x);
      Once(all, x);
      if x in part {
        var i :| 0 <= i < |part| && part[i] == x;
      }
    }
  }

  /** The cap of a quarter can be exceeded: three injection candidates, a target of eight. */
  method InjectionCapIsExceeded() returns (r: seq<Candidate>)
    ensures |r| == 3 && |Of(r, Injection)| == 3 > 8 / 4
  {
    hide SampleOf, FillOf, SizeBounds, FloorsMet, Balanced, InjectionCap, Floors, Of, Eligible, Shuffles;
    var a := Candidate("a", Injection, Key(0, 0));
    var b := Candidate("b", Injection, Key(0, 0));
    var c := Candidate("c", Injection, Key(0, 0));
    var rows := [a, b, c];
    ghost var drawn, groups;
    r, drawn, groups := Sample(rows, 8, {});
    ThreeOf(a, b, c, Injection);
    AllEligible(rows);
    IsPart(r, rows);
    SameSize(multiset(r), multiset(rows));
    OfPart(r, rows, Injection);
  }

  lemma ThreeOf(a: Candidate, b: Candidate, c: Candidate, st: Stratum)
    requires a.stratum == b.stratum == c.stratum == st
    ensures Of([a, b, c], st) == [a, b, c]
  {
    OfPure([a, b, c], st, st);
  }

  lemma {:induction false} AllEligible(rows: seq<Candidate>)
    ensures Eligible(rows, {}) == rows
  {
    if rows != [] {
      AllEligible(rows[..|rows| - 1]);
      assert rows == rows[..|rows| - 1] + [rows[|rows| - 1]];
    }
  }

  /** The size of a sample is at most the target and the cases there are, and falls short of the smaller
      of the target and the rows by no more than the rows repeat cases. */
  ghost predicate SizeBounds(eligible: seq<Candidate>, r: seq<Candidate>, n: nat) {
    && |r| <= Min(n, |Ids(eligible)|)
    && Min(n, |eligible|) - (|eligible| - |Ids(eligible)|) <= |r|
  }

  /** The sample, for any draws and shuffles, of rows that may repeat cases. `drawn` is how much of it the
      strata contributed, `groups` how what they left was shuffled. */
  method Sample(rows: seq<Candidate>, n: nat, exclude: set<string>)
    returns (r: seq<Candidate>, ghost drawn: nat, ghost groups: seq<Group>)
    ensures Distinct(r) && Within(r, Eligible(rows, exclude)) && |r| <= n && drawn <= |r|
    ensures SampleOf(Eligible(rows, exclude), n, r[..drawn], groups, r)
    ensures FillOf(Picks(groups, n, drawn), Missing(Eligible(rows, exclude), r[..drawn]), n - drawn)
    ensures SizeBounds(Eligible(rows, exclude), r, n)
    ensures drawn <= Floors(Eligible(rows, exclude), n, ALL_STRATA)
    ensures Distinct(Eligible(rows, exclude)) ==> drawn == Min(n, Floors(Eligible(rows, exclude), n, ALL_STRATA))
    ensures Distinct(Eligible(rows, exclude)) ==> |r| == Min(n, |Eligible(rows, exclude)|)
    ensures Distinct(Eligible(rows, exclude)) && Floors(Eligible(rows, exclude), n, ALL_STRATA) <= n
        ==> FloorsMet(Eligible(rows, exclude), r, n)
    ensures Distinct(Eligible(rows, exclude)) ==> Balanced(r[drawn..], r, Eligible(rows, exclude))
    ensures Distinct(Eligible(rows, exclude)) ==> InjectionCap(Eligible(rows, exclude), r, drawn, n)
  {
    hide Eligible, Draws, Drawn, Floors, Balanced, InjectionCap, Distinct, Within;
    var eligible := EligibleRows(rows, exclude);
    var selected := DrawStrata(eligible, n);
    DrawnIsWithin(eligible, selected, n);
    var clamped := Clamp(selected, n);
    ClampedWithin(clamped, selected, eligible);
    assert Selection(eligible, n, clamped);
    FloorsOf(eligible, selected, n);
    MinIs(n, Floors(eligible, n, ALL_STRATA));
    hide Selection, FloorsMet, Min;
    r, drawn, groups := Remainder(eligible, clamped, n);
    SizeIsBounded(eligible, clamped, groups, n, r);
    if Distinct(eligible) {
      InjectionCapOf(eligible, selected, r, drawn, n);
    }
  }

  lemma DrawnIsWithin(eligible: seq<Candidate>, selected: seq<Candidate>, n: nat)
    requires Drawn(eligible, selected, n, ALL_STRATA)
    ensures Distinct(selected) && Within(selected, eligible)
  {}

  lemma ClampedWithin(clamped: seq<Candidate>, selected: seq<Candidate>, eligible: seq<Candidate>)
    requires Within(clamped, selected) && Within(selected, eligible)
    ensures Within(clamped, eligible)
  {
    forall i | 0 <= i < |clamped|
      ensures clamped[i] in eligible
    {
      var j :| 0 <= j < |selected| && selected[j] == clamped[i];
    }
  }

  lemma FloorsOf(eligible: seq<Candidate>, selected: seq<Candidate>, n: nat)
    requires Drawn(eligible, selected, n, ALL_STRATA)
    ensures Distinct(eligible) ==> FloorsMet(eligible, selected, n)
  {}

  /** Fill what the target leaves with the candidates not yet selected. */
  method Remainder(eligible: seq<Candidate>, selected: seq<Candidate>, n: nat)
    returns (r: seq<Candidate>, ghost drawn: nat, ghost groups: seq<Group>)
    requires Distinct(selected) && Within(selected, eligible) && |selected| <= n
    ensures Distinct(r) && Within(r, eligible) && drawn == |selected| <= |r| <= n && r[..drawn] == selected
    ensures Shuffles(groups, Grouped(Missing(eligible, selected)))
    ensures r == PutAll(selected, Picks(groups, n, |selected|))
    ensures FillOf(Picks(groups, n, |selected|), Missing(eligible, selected), n - |selected|)
    ensures Distinct(eligible) ==> |r| == Min(n, |eligible|) && Balanced(r[drawn..], r, eligible)
    ensures Distinct(eligible) && FloorsMet(eligible, selected, n) ==> FloorsMet(eligible, r, n)
  {
    var pool := MissingFrom(eligible, selected);
    r, drawn, groups := selected, |selected|, Grouped(pool);
    SameShuffle(groups);
    if n > |selected| && pool != [] {
      var start := GroupBy(pool);
      start := ShuffleAll(start);
      ghost var picks, rest, turn;
      r, picks, rest, turn := Fill(selected, start, n - |selected|);
      groups := start;
    } else {
      NothingFilled(pool, n, |selected|);
    }
    ghost var left := FilledIsFair(groups, pool, n - |selected|);
    RemainderFacts(eligible, selected, Picks(groups, n, |selected|), n);
  }

  lemma SameShuffle(groups: seq<Group>)
    ensures Shuffles(groups, groups)
  {}

  lemma NothingFilled(pool: seq<Candidate>, n: nat, drawn: nat)
    requires n <= drawn || pool == []
    ensures Picks(Grouped(pool), n, drawn) == []
  {}

  lemma RemainderFacts(eligible: seq<Candidate>, selected: seq<Candidate>, picks: seq<Candidate>, n: nat)
    requires Distinct(selected) && Within(selected, eligible) && |selected| <= n
    requires FillOf(picks, Missing(eligible, selected), n - |selected|)
    ensures var r := PutAll(selected, picks);
      && Distinct(r) && Within(r, eligible) && |selected| <= |r| <= n && r[..|selected|] == selected
      && (Distinct(eligible) ==> |r| == Min(n, |eligible|) && Balanced(r[|selected|..], r, eligible))
      && (Distinct(eligible) && FloorsMet(eligible, selected, n) ==> FloorsMet(eligible, r, n))
  {
    PicksWithin(eligible, selected, picks);
    PutAllFacts(selected, picks, eligible);
    PicksAreNew(eligible, selected, picks);
    PutAllKeeps(selected, picks);
    MinIs(n - |selected|, |Missing(eligible, selected)|);
    MinIs(n, |eligible|);
    hide *;
    if Distinct(eligible) {
      RemainderExact(eligible, selected, picks, n);
    }
  }

  lemma PicksAreNew(eligible: seq<Candidate>, selected: seq<Candidate>, picks: seq<Candidate>)
    requires multiset(picks) <= multiset(Missing(eligible, selected))
    ensures Ids(selected) !! Ids(picks) && Ids(selected) !! Ids(Missing(eligible, selected))
    ensures Ids(picks) <= Ids(Missing(eligible, selected))
  {
    var pool := Missing(eligible, selected);
    MissingFacts(eligible, selected);
    PartFacts(picks, pool);
    IdsOfPart(picks, pool);
    forall id | id in Ids(pool)
      ensures id !in Ids(selected)
    {
      IdOfIds(selected, id);
    }
  }

  /** The cases of the rows are the selected ones and those left. */
  lemma IdsSplit(eligible: seq<Candidate>, selected: seq<Candidate>)
    requires Within(selected, eligible)
    ensures Ids(eligible) == Ids(selected) + Ids(Missing(eligible, selected))
  {
    MissingFacts(eligible, selected);
    IdsOfPart(selected, eligible);
    forall id
      ensures id in Ids(eligible) <==> id in Ids(selected) || id in Ids(Missing(eligible, selected))
    {
      IdOfIds(selected, id);
    }
  }

  lemma SizeIsBounded(eligible: seq<Candidate>, selected: seq<Candidate>, groups: seq<Group>, n: nat, r: seq<Candidate>)
    requires Distinct(selected) && Within(selected, eligible) && |selected| <= n
    requires r == PutAll(selected, Picks(groups, n, |selected|))
    requires FillOf(Picks(groups, n, |selected|), Missing(eligible, selected), n - |selected|)
    ensures SizeBounds(eligible, r, n)
    ensures |r| == |selected| + |Ids(Picks(groups, n, |selected|))|
    ensures |Ids(eligible)| == |selected| + |Ids(Missing(eligible, selected))|
  {
    var picks, pool := Picks(groups, n, |selected|), Missing(eligible, selected);
    hide Picks, Missing;
    SizeOf(eligible, selected, picks, pool, r);
    RepeatsOfPart(picks, pool);
    MissingFacts(eligible, selected);
    RepeatsOfPart(pool, eligible);
    IdsDistinct(picks);
    IdsDistinct(pool);
    MinIs(n - |selected|, |pool|);
    MinIs(n, |eligible|);
    MinIs(n, |Ids(eligible)|);
    if |picks| == |pool| {
      AllGiven(picks, pool, Key(0, 0));
      SameRows(picks, pool);
    }
    assert |eligible| - |Ids(eligible)| >= 0 by {
      IdsDistinct(eligible);
    }
  }

  lemma SizeOf(eligible: seq<Candidate>, selected: seq<Candidate>, picks: seq<Candidate>, pool: seq<Candidate>,
               r: seq<Candidate>)
    requires Distinct(selected) && Within(selected, eligible) && pool == Missing(eligible, selected)
    requires r == PutAll(selected, picks) && multiset(picks) <= multiset(pool)
    ensures |r| == |selected| + |Ids(picks)| && |Ids(eligible)| == |selected| + |Ids(pool)|
    ensures Ids(picks) <= Ids(pool) && |Ids(picks)| <= |Ids(pool)|
  {
    PicksAreNew(eligible, selected, picks);
    PicksWithin(eligible, selected, picks);
    PutAllFacts(selected, picks, eligible);
    IdsPutAll(selected, picks);
    IdsSplit(eligible, selected);
    IdsDistinct(selected);
    IdsDistinct(r);
    hide *;
    assert |Ids(selected) + Ids(picks)| == |Ids(selected)| + |Ids(picks)|;
    assert |Ids(selected) + Ids(pool)| == |Ids(selected)| + |Ids(pool)|;
    assert |Ids(pool)| == |Ids(picks)| + |Ids(pool) - Ids(picks)|;
  }

  lemma PicksWithin(eligible: seq<Candidate>, selected: seq<Candidate>, picks: seq<Candidate>)
    requires multiset(picks) <= multiset(Missing(eligible, selected))
    ensures Within(picks, eligible)
  {
    MissingFacts(eligible, selected);
    PartFacts(picks, Missing(eligible, selected));
    hide Missing;
    forall i | 0 <= i < |picks|
      ensures picks[i] in eligible
    {
      assert picks[i] in Missing(eligible, selected);
    }
  }

  lemma RemainderExact(eligible: seq<Candidate>, selected: seq<Candidate>, picks: seq<Candidate>, n: nat)
    requires Distinct(eligible) && Distinct(selected) && Within(selected, eligible) && |selected| <= n
    requires FillOf(picks, Missing(eligible, selected), n - |selected|)
    ensures var r := PutAll(selected, picks);
      && r == selected + picks && r[..|selected|] == selected && |r| == Min(n, |eligible|)
      && r[|selected|..] == picks && Balanced(picks, r, eligible)
      && (FloorsMet(eligible, selected, n) ==> FloorsMet(eligible, r, n))
  {
    var pool := Missing(eligible, selected);
    MissingFacts(eligible, selected);
    PartFacts(pool, eligible);
    PartFacts(picks, pool);
    MissingSplits(eligible, selected);
    PicksApart(selected, picks, pool);
    PicksWithin(eligible, selected, picks);
    PutAllFacts(selected, picks, eligible);
    BalanceOf(eligible, selected, picks, pool);
    MinIs(n - |selected|, |pool|);
    MinIs(n, |eligible|);
    hide *;
    assert (selected + picks)[|selected|..] == picks && (selected + picks)[..|selected|] == selected;
    if FloorsMet(eligible, selected, n) {
      MoreKeepsFloors(eligible, selected, picks, n);
    }
  }

  lemma PicksApart(selected: seq<Candidate>, picks: seq<Candidate>, pool: seq<Candidate>)
    requires Distinct(selected + pool) && Distinct(picks) && Within(picks, pool) && Distinct(selected)
    ensures Distinct(selected + picks)
  {
    forall i, j | 0 <= i < |selected| && 0 <= j < |picks|
      ensures selected[i].caseId != picks[j].caseId
    {
      var k :| 0 <= k < |pool| && pool[k] == picks[j];
      assert (selected + pool)[|selected| + k] == pool[k];
      assert (selected + pool)[i] == selected[i];
    }
  }

  lemma BalanceOf(eligible: seq<Candidate>, selected: seq<Candidate>, picks: seq<Candidate>, pool: seq<Candidate>)
    requires multiset(eligible) == multiset(selected) + multiset(pool) && FairTo(picks, pool)
    ensures Balanced(picks, selected + picks, eligible)
  {
    forall a, b | Behind(a, CountKey(picks, a), b, CountKey(picks, b))
      ensures CountKey(selected + picks, a) == CountKey(eligible, a)
    {
      CountPermuted(eligible, selected + pool, a);
      CountAppend(selected, pool, a);
      CountAppend(selected, picks, a);
    }
  }

  lemma MoreKeepsFloors(eligible: seq<Candidate>, selected: seq<Candidate>, picks: seq<Candidate>, n: nat)
    requires FloorsMet(eligible, selected, n)
    ensures FloorsMet(eligible, selected + picks, n)
  {
    forall st | st in ALL_STRATA
      ensures |Of(selected + picks, st)| >= Min(Quota(st, n), |Of(eligible, st)|)
    {
      OfAppend(selected, picks, st);
    }
  }

  // ---- Rows that repeat a case. ----

  /** Two verdicts of one instant make an alert eligible twice, and the fill spends its places on both rows:
      of three injection candidates, one of them twice, three places never get more than two. Nothing is
      drawn, as a quarter of three is none. */
  method RepeatedRowsFallShort() returns (r: seq<Candidate>)
    ensures Distinct(r) && |r| <= 2 < Min(3, |{"u", "v", "w"}|)
  {
    hide *;
    var u := Candidate("u", Injection, Key(0, 0));
    var v, w := Candidate("v", Injection, Key(1, 0)), Candidate("w", Injection, Key(1, 0));
    ghost var drawn, groups;
    r, drawn, groups := Sample([u, u, v, w], 3, {});
    NothingDrawnOf(u, v, w, drawn, groups, r);
    MinIs(3, |{"u", "v", "w"}|);
  }

  lemma NothingDrawnOf(u: Candidate, v: Candidate, w: Candidate, drawn: nat, groups: seq<Group>, r: seq<Candidate>)
    requires u.stratum == v.stratum == w.stratum == Injection && drawn <= |r| && Distinct(r)
    requires u.key == Key(0, 0) && v.key == w.key == Key(1, 0)
    requires drawn <= Floors(Eligible([u, u, v, w], {}), 3, ALL_STRATA)
    requires SampleOf(Eligible([u, u, v, w], {}), 3, r[..drawn], groups, r)
    requires FillOf(Picks(groups, 3, drawn), Missing(Eligible([u, u, v, w], {}), r[..drawn]), 3 - drawn)
    ensures |r| <= 2
  {
    hide *;
    var rows := [u, u, v, w];
    AllEligible(rows);
    NothingToDraw(rows, 3, ALL_STRATA);
    assert drawn == 0 && r[..drawn] == [];
    NoneMissing(rows);
    TwoCases(u, v, w, groups, r);
  }

  lemma SampleIs(eligible: seq<Candidate>, n: nat, selected: seq<Candidate>, groups: seq<Group>, r: seq<Candidate>)
    requires SampleOf(eligible, n, selected, groups, r)
    ensures r == PutAll(selected, Picks(groups, n, |selected|))
  {}

  lemma TwoCases(u: Candidate, v: Candidate, w: Candidate, groups: seq<Group>, r: seq<Candidate>)
    requires u.key == Key(0, 0) && v.key == w.key == Key(1, 0) && Distinct(r)
    requires SampleOf([u, u, v, w], 3, [], groups, r) && FillOf(Picks(groups, 3, 0), [u, u, v, w], 3)
    ensures |r| <= 2
  {
    hide *;
    var picks := Picks(groups, 3, 0);
    SampleIs([u, u, v, w], 3, [], groups, r);
    FirstGivesTwice(u, v, w, picks);
    RepeatsOfPart([u, u], picks);
    TwoRowsOneCase(u);
    IdsPutAll([], picks);
    IdsDistinct(r);
    NoIds();
    assert Ids([]) + Ids(picks) == Ids(picks);
  }

  /** Below a target of four no injection candidate is drawn. */
  lemma {:induction false} NothingToDraw(eligible: seq<Candidate>, n: nat, strata: seq<Stratum>)
    requires n < 4 && forall i :: 0 <= i < |eligible| ==> eligible[i].stratum == Injection
    ensures Floors(eligible, n, strata) == 0
  {
    if strata != [] {
      NothingToDraw(eligible, n, strata[..|strata| - 1]);
      OfPure(eligible, Injection, strata[|strata| - 1]);
    }
  }

  lemma {:induction false} NoneMissing(rows: seq<Candidate>)
    ensures Missing(rows, []) == rows
  {
    if rows != [] {
      NoneMissing(rows[..|rows| - 1]);
      Rejoin(rows);
    }
  }

  lemma TwoRowsOneCase(u: Candidate)
    ensures |[u, u]| == 2 && |Ids([u, u])| == 1
  {
    assert u in [u, u];
    assert Ids([u, u]) == {u.caseId};
  }

  lemma NoIds()
    ensures Ids([]) == {}
  {}

  /** The earlier group gives its second row in the third place. */
  lemma FirstGivesTwice(u: Candidate, v: Candidate, w: Candidate, picks: seq<Candidate>)
    requires u.key == Key(0, 0) && v.key == w.key == Key(1, 0) && FillOf(picks, [u, u, v, w], 3)
    ensures |picks| == 3 && multiset([u, u]) <= multiset(picks)
  {
    var rows := [u, u, v, w];
    TwoAhead(u, v, w);
    MinIs(3, 4);
    hide Ahead;
    GivenIff(picks, rows, 3, u.key, 1);
    PartFacts(picks, rows);
    hide FillOf, CountKey;
    OnlyOneOfKey(rows, u);
    OnlyOneOfKey(picks, u);
    assert rows == [u, u] + [v, w];
  }

  lemma {:induction false} OnlyOneOfKey(s: seq<Candidate>, u: Candidate)
    requires forall i :: 0 <= i < |s| ==> s[i].key != u.key || s[i] == u
    ensures CountKey(s, u.key) == multiset(s)[u]
  {
    if s != [] {
      OnlyOneOfKey(s[..|s| - 1], u);
      Rejoin(s);
    }
  }

  lemma TwoAhead(u: Candidate, v: Candidate, w: Candidate)
    requires u.key == Key(0, 0) && v.key == w.key == Key(1, 0)
    ensures Ahead([u, u, v, w], u.key, 1) == [u, v]
  {
    hide Ahead, CountKey;
    var k := u.key;
    assert Ahead([], k, 1) == [] by {
      NoneAhead(k, 1);
    }
    CountTwo(u, v);
    AheadPush([], u, k, 1);
    AheadPush([u], u, k, 1);
    AheadPush([u, u], v, k, 1);
    AheadPush([u, u, v], w, k, 1);
    assert [] + [u] == [u] && [u] + [u] == [u, u] && [u, u] + [v] == [u, u, v] && [u, u, v] + [w] == [u, u, v, w];
    Empty([u]);
    Empty([u] + [v]);
  }

  lemma NoneAhead(k: Key, j: nat)
    ensures Ahead([], k, j) == []
  {}

  lemma CountTwo(u: Candidate, v: Candidate)
    requires u.key != v.key
    ensures CountKey([], u.key) == 0 && CountKey([u], u.key) == 1
    ensures CountKey([u, u], v.key) == 0 && CountKey([u, u, v], v.key) == 1
  {
    assert [] + [u] == [u] && [u] + [u] == [u, u] && [u, u] + [v] == [u, u, v];
    CountPush([], u, u.key);
    CountPush([], u, v.key);
    CountPush([u], u, v.key);
    CountPush([u, u], v, v.key);
  }

  lemma AheadPush(pool: seq<Candidate>, c: Candidate, k: Key, j: nat)
    ensures Ahead(pool + [c], k, j)
         == Ahead(pool, k, j) + if CountKey(pool, c.key) < Reach(c.key, k, j) then [c] else []
  {
    Halves(pool, [c]);
  }
}
