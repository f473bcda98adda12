/** The stratified candidate sample: floors per category, a capped injection draw, a clamp, and a
    round-robin fill by sensor and day. Random draws and shuffles are arbitrary choices. */
module Sampler {
  import opened Seqs

  /** Sensors are numbered in name order. */
  datatype Key = Key(sensor: nat, day: nat)

  datatype Stratum =
    | Scanning | BruteForce | Reconnaissance | SuccessfulIntrusion | MalwareDelivery | PersistenceAttempt
    | OtherCategory | Injection | Unverdicted

  datatype Candidate = Candidate(caseId: string, stratum: Stratum, key: Key)

  const STRATA_CATEGORIES: seq<Stratum> := [
    Scanning, BruteForce, Reconnaissance, SuccessfulIntrusion, MalwareDelivery, PersistenceAttempt, OtherCategory
  ]

  // ---- Case ids. ----

  predicate HasId(s: seq<Candidate>, id: string) {
    exists i :: 0 <= i < |s| && s[i].caseId == id
  }

  ghost predicate Distinct(s: seq<Candidate>) {
    forall i, j :: 0 <= i < j < |s| ==> s[i].caseId != s[j].caseId
  }

  ghost predicate Within(s: seq<Candidate>, all: seq<Candidate>) {
    forall i :: 0 <= i < |s| ==> s[i] in all
  }

  function IndexOf(s: seq<Candidate>, id: string): (i: nat)
    ensures i <= |s| && (i < |s| ==> s[i].caseId == id)
    ensures forall j :: 0 <= j < i ==> s[j].caseId != id
  {
    if s == [] || s[0].caseId == id then 0 else 1 + IndexOf(s[1..], id)
  }

  /** Assignment to an insertion-ordered dictionary keyed by case id. */
  function Put(selected: seq<Candidate>, c: Candidate): seq<Candidate> {
    var i := IndexOf(selected, c.caseId);
    if i < |selected| then selected[i := c] else selected + [c]
  }

  lemma PutFacts(selected: seq<Candidate>, c: Candidate)
    ensures Distinct(selected) ==> Distinct(Put(selected, c))
    ensures |Put(selected, c)| == |selected| + if HasId(selected, c.caseId) then 0 else 1
    ensures !HasId(selected, c.caseId) ==> Put(selected, c) == selected + [c]
    ensures forall i :: 0 <= i < |Put(selected, c)| ==> Put(selected, c)[i] == c || Put(selected, c)[i] in selected
  {
    assert HasId(selected, c.caseId) <==> IndexOf(selected, c.caseId) < |selected|;
    hide IndexOf;
  }

  function PutAll(selected: seq<Candidate>, more: seq<Candidate>): seq<Candidate> {
    if more == [] then selected else Put(PutAll(selected, more[..|more| - 1]), more[|more| - 1])
  }

  lemma PutAllPush(selected: seq<Candidate>, more: seq<Candidate>, c: Candidate)
    ensures PutAll(selected, more + [c]) == Put(PutAll(selected, more), c)
  {
    Halves(more, [c]);
  }

  lemma DistinctFront(s: seq<Candidate>, c: Candidate)
    requires Distinct(s + [c])
    ensures Distinct(s) && !HasId(s, c.caseId)
  {
    var whole := s + [c];
    assert forall i :: 0 <= i < |s| ==> s[i] == whole[i];
    assert whole[|s|] == c;
  }

  lemma PutWithin(selected: seq<Candidate>, c: Candidate, all: seq<Candidate>)
    requires Distinct(selected) && Within(selected, all) && c in all
    ensures Distinct(Put(selected, c)) && Within(Put(selected, c), all)
    ensures |selected| <= |Put(selected, c)| <= |selected| + 1
  {
    PutFacts(selected, c);
    hide Put, HasId;
    forall i | 0 <= i < |Put(selected, c)|
      ensures Put(selected, c)[i] in all
    {
      if Put(selected, c)[i] != c {
        var j :| 0 <= j < |selected| && selected[j] == Put(selected, c)[i];
      }
    }
  }

  lemma {:induction false} PutAllFacts(selected: seq<Candidate>, more: seq<Candidate>, all: seq<Candidate>)
    requires Distinct(selected) && Within(selected, all) && Within(more, all)
    ensures Distinct(PutAll(selected, more)) && Within(PutAll(selected, more), all)
    ensures |selected| <= |PutAll(selected, more)| <= |selected| + |more|
    ensures Distinct(selected + more) ==> PutAll(selected, more) == selected + more
  {
    if more == [] {
      Empty(selected);
    } else {
      var front, last := more[..|more| - 1], more[|more| - 1];
      assert last in all;
      PutAllFacts(selected, front, all);
      PutWithin(PutAll(selected, front), last, all);
      if Distinct(selected + more) {
        var sofar := selected + front;
        assert selected + more == sofar + [last];
        DistinctFront(sofar, last);
        PutFacts(sofar, last);
      }
      hide Put, HasId, Distinct, Within;
    }
  }

  /** The cases among the rows. */
  function Ids(s: seq<Candidate>): set<string> { set c | c in s :: c.caseId }

  lemma IdsPush(s: seq<Candidate>, c: Candidate)
    ensures Ids(s + [c]) == Ids(s) + {c.caseId}
  {
    assert c in s + [c];
    forall id | id in Ids(s + [c])
      ensures id in Ids(s) + {c.caseId}
    {
      var x :| x in s + [c] && x.caseId == id;
      assert x in s || x == c;
    }
    forall id | id in Ids(s)
      ensures id in Ids(s + [c])
    {
      var x :| x in s && x.caseId == id;
      assert x in s + [c];
    }
  }

  lemma IdOfIds(s: seq<Candidate>, id: string)
    ensures id in Ids(s) <==> HasId(s, id)
  {
    if HasId(s, id) {
      var i :| 0 <= i < |s| && s[i].caseId == id;
      assert s[i] in s;
    }
  }

  lemma {:induction false} IdsDistinct(s: seq<Candidate>)
    ensures |Ids(s)| <= |s| && (Distinct(s) <==> |Ids(s)| == |s|)
  {
    if s == [] {
      assert Ids(s) == {};
    } else {
      var front, last := s[..|s| - 1], s[|s| - 1];
      IdsDistinct(front);
      Rejoin(s);
      IdsPush(front, last);
      IdOfIds(front, last.caseId);
      if Distinct(s) {
        DistinctFront(front, last);
      }
    }
  }

  lemma IdsPut(s: seq<Candidate>, c: Candidate)
    ensures Ids(Put(s, c)) == Ids(s) + {c.caseId}
  {
    var i := IndexOf(s, c.caseId);
    if i < |s| {
      var t := s[i := c];
      forall id
        ensures id in Ids(t) <==> id in Ids(s) + {c.caseId}
      {
        IdOfIds(t, id);
        IdOfIds(s, id);
        SameIds(s, i, c, id);
      }
    } else {
      IdsPush(s, c);
    }
  }

  lemma SameIds(s: seq<Candidate>, i: nat, c: Candidate, id: string)
    requires i < |s| && s[i].caseId == c.caseId
    ensures HasId(s[i := c], id) <==> HasId(s, id)
    ensures HasId(s, c.caseId)
  {
    var t := s[i := c];
    assert forall j :: 0 <= j < |s| ==> t[j].caseId == s[j].caseId;
  }

  lemma {:induction false} IdsPutAll(s: seq<Candidate>, more: seq<Candidate>)
    ensures Ids(PutAll(s, more)) == Ids(s) + Ids(more)
  {
    if more == [] {
      assert Ids(more) == {};
    } else {
      var front, last := more[..|more| - 1], more[|more| - 1];
      IdsPutAll(s, front);
      Rejoin(more);
      IdsPush(front, last);
      IdsPut(PutAll(s, front), last);
      hide Put, Ids;
    }
  }

  lemma IdsOfPart(part: seq<Candidate>, all: seq<Candidate>)
    requires Within(part, all)
    ensures Ids(part) <= Ids(all)
  {
    forall id | id in Ids(part)
      ensures id in Ids(all)
    {
      var x :| x in part && x.caseId == id;
      var i :| 0 <= i < |part| && part[i] == x;
      assert x in all;
    }
  }

  /** Cases put after a selection that holds none of them leave it in front. */
  lemma {:induction false} PutAllKeeps(s: seq<Candidate>, more: seq<Candidate>)
    requires Ids(s) !! Ids(more)
    ensures s <= PutAll(s, more)
  {
    if more != [] {
      var front, last := more[..|more| - 1], more[|more| - 1];
      Rejoin(more);
      IdsPush(front, last);
      PutAllKeeps(s, front);
      hide PutAll, Ids;
      IdOfIds(s, last.caseId);
      PutKeeps(s, PutAll(s, front), last);
      assert PutAll(s, more) == Put(PutAll(s, front), last) by {
        PutAllPush(s, front, last);
      }
    }
  }

  lemma PutKeeps(s: seq<Candidate>, t: seq<Candidate>, c: Candidate)
    requires s <= t && !HasId(s, c.caseId)
    ensures s <= Put(t, c)
  {
    assert forall j :: 0 <= j < |s| ==> t[j] == s[j] && s[j].caseId != c.caseId;
  }

  // ---- Multisets of candidates. ----

  lemma {:induction false} Once(s: seq<Candidate>, x: Candidate)
    requires Distinct(s)
    ensures multiset(s)[x] == if x in s then 1 else 0
  {
    if s != [] {
      var front, last := s[..|s| - 1], s[|s| - 1];
      Once(front, x);
      assert s == front + [last];
    }
  }

  lemma PartFacts(part: seq<Candidate>, all: seq<Candidate>)
    requires multiset(part) <= multiset(all)
    ensures Within(part, all) && (Distinct(all) ==> Distinct(part))
  {
    forall i | 0 <= i < |part|
      ensures part[i] in all
    {
      assert part[i] in multiset(part);
    }
    if Distinct(all) {
      forall i, j | 0 <= i < j < |part|
        ensures part[i].caseId != part[j].caseId
      {
        Once(all, part[i]);
        if part[i] == part[j] {
          Twice(part, i, j);
        }
      }
    }
  }

  /** What is in the whole and not, by id, in a part of it. */
  function Missing(all: seq<Candidate>, part: seq<Candidate>): seq<Candidate> {
    if all == [] then []
    else Missing(all[..|all| - 1], part) + if HasId(part, all[|all| - 1].caseId) then [] else [all[|all| - 1]]
  }

  lemma {:induction false} MissingFacts(all: seq<Candidate>, part: seq<Candidate>)
    ensures multiset(Missing(all, part)) <= multiset(all)
    ensures forall x :: x in Missing(all, part) <==> x in all && !HasId(part, x.caseId)
  {
    if all != [] {
      var front, last := all[..|all| - 1], all[|all| - 1];
      assert Missing(all, part) == Missing(front, part) + if HasId(part, last.caseId) then [] else [last];
      hide Missing, HasId;
      MissingFacts(front, part);
      Rejoin(all);
    }
  }

  lemma MissingSplits(all: seq<Candidate>, part: seq<Candidate>)
    requires Distinct(all) && Distinct(part) && Within(part, all)
    ensures multiset(all) == multiset(part) + multiset(Missing(all, part))
    ensures |all| == |part| + |Missing(all, part)|
    ensures Distinct(part + Missing(all, part))
  {
    var missing := Missing(all, part);
    MissingFacts(all, part);
    PartFacts(missing, all);
    forall x
      ensures multiset(all)[x] == (multiset(part) + multiset(missing))[x]
    {
      Once(all, x);
      Once(part, x);
      Once(missing, x);
      if HasId(part, x.caseId) && x in all {
        var i :| 0 <= i < |part| && part[i].caseId == x.caseId;
        assert part[i] == x;
      }
    }
    assert multiset(all) == multiset(part) + multiset(missing);
    assert |multiset(all)| == |all| && |multiset(part)| == |part| && |multiset(missing)| == |missing|;
    forall i, j | 0 <= i < j < |part + missing|
      ensures (part + missing)[i].caseId != (part + missing)[j].caseId
    {
      if i < |part| <= j {
        var x := missing[j - |part|];
        assert x in missing;
        assert !HasId(part, x.caseId);
      }
    }
  }

  /** How many of the rows are rows of the case. */
  function WithId(s: seq<Candidate>, id: string): seq<Candidate> {
    if s == [] then [] else WithId(s[..|s| - 1], id) + if s[|s| - 1].caseId == id then [s[|s| - 1]] else []
  }

  function WithoutId(s: seq<Candidate>, id: string): seq<Candidate> {
    if s == [] then [] else WithoutId(s[..|s| - 1], id) + if s[|s| - 1].caseId == id then [] else [s[|s| - 1]]
  }

  function Copies(s: seq<Candidate>, id: string): nat { |WithId(s, id)| }

  lemma {:induction false} SplitById(s: seq<Candidate>, id: string)
    ensures multiset(WithId(s, id)) + multiset(WithoutId(s, id)) == multiset(s)
    ensures |WithId(s, id)| + |WithoutId(s, id)| == |s|
    ensures forall x :: x in WithId(s, id) ==> x.caseId == id
    ensures forall x :: x in WithoutId(s, id) ==> x.caseId != id
  {
    if s != [] {
      var front, last := s[..|s| - 1], s[|s| - 1];
      assert WithId(s, id) == WithId(front, id) + if last.caseId == id then [last] else [];
      assert WithoutId(s, id) == WithoutId(front, id) + if last.caseId == id then [] else [last];
      hide WithId, WithoutId;
      SplitById(front, id);
      Rejoin(s);
    }
  }

  lemma CopiesOfPart(part: seq<Candidate>, all: seq<Candidate>, id: string)
    requires multiset(part) <= multiset(all)
    ensures Copies(part, id) <= Copies(all, id)
  {
    SplitById(part, id);
    SplitById(all, id);
    var p, a := multiset(WithId(part, id)), multiset(WithId(all, id));
    forall x
      ensures p[x] <= a[x]
    {
      assert p[x] + multiset(WithoutId(part, id))[x] == multiset(part)[x];
      assert a[x] + multiset(WithoutId(all, id))[x] == multiset(all)[x];
      if x.caseId == id {
        assert x !in WithoutId(all, id);
      } else {
        assert x !in WithId(part, id);
      }
    }
    assert p <= a;
    assert |a| == |p| + |a - p|;
  }

  /** A part of the rows repeats cases no more often than all of them do. */
  lemma RepeatsOfPart(part: seq<Candidate>, all: seq<Candidate>)
    requires multiset(part) <= multiset(all)
    ensures |part| - |Ids(part)| <= |all| - |Ids(all)|
  {
    var more := Listed(multiset(all) - multiset(part));
    assert multiset(part + more) == multiset(all);
    SameRows(part + more, all);
    MoreRepeats(part, more);
  }

  lemma SameRows(a: seq<Candidate>, b: seq<Candidate>)
    requires multiset(a) == multiset(b)
    ensures |a| == |b| && Ids(a) == Ids(b)
  {
    assert |multiset(a)| == |multiset(b)|;
    forall x
      ensures x in a <==> x in b
    {
      assert x in multiset(a) <==> x in multiset(b);
    }
  }

  lemma {:induction false} MoreRepeats(part: seq<Candidate>, more: seq<Candidate>)
    ensures |part| - |Ids(part)| <= |part + more| - |Ids(part + more)|
  {
    if more == [] {
      Empty(part);
    } else {
      hide Ids;
      var front, last := more[..|more| - 1], more[|more| - 1];
      MoreRepeats(part, front);
      Rejoin(more);
      Assoc(part, front, [last]);
      IdsPush(part + front, last);
    }
  }

  lemma {:induction false} Listed(m: multiset<Candidate>) returns (s: seq<Candidate>)
    ensures multiset(s) == m
    decreases |m|
  {
    if |m| == 0 {
      s := [];
    } else {
      var x :| x in m;
      s := Listed(m - multiset{x});
      s := s + [x];
    }
  }

  // ---- Arbitrary draws. ----

  method TakeAny(left: seq<Candidate>) returns (x: Candidate, rest: seq<Candidate>)
    requires left != []
    ensures multiset(left) == multiset{x} + multiset(rest) && |rest| == |left| - 1
  {
    var i :| 0 <= i < |left|;
    x, rest := left[i], left[..i] + left[i + 1..];
    assert left == left[..i] + [left[i]] + left[i + 1..];
  }

  /** Any `k` of the members, or all of them in order. */
  method Draw(members: seq<Candidate>, k: nat) returns (r: seq<Candidate>)
    ensures k >= |members| ==> r == members
    ensures k < |members| ==> |r| == k && multiset(r) <= multiset(members)
  {
    if k >= |members| {
      return members;
    }
    r := [];
    var left := members;
    while |r| < k
      invariant |r| <= k && |left| == |members| - |r|
      invariant multiset(members) == multiset(r) + multiset(left)
    {
      var x;
      x, left := TakeAny(left);
      r := r + [x];
    }
  }

  method Shuffle(members: seq<Candidate>) returns (r: seq<Candidate>)
    ensures multiset(r) == multiset(members) && |r| == |members|
  {
    r := [];
    var left := members;
    while left != []
      invariant |r| + |left| == |members| && multiset(members) == multiset(r) + multiset(left)
      decreases |left|
    {
      var x;
      x, left := TakeAny(left);
      r := r + [x];
    }
  }

  // ---- Strata. ----

  function Of(s: seq<Candidate>, st: Stratum): seq<Candidate> {
    if s == [] then []
    else Of(s[..|s| - 1], st) + if s[|s| - 1].stratum == st then [s[|s| - 1]] else []
  }

  function Min(a: nat, b: nat): nat { if a <= b then a else b }

  lemma MinIs(a: nat, b: nat)
    ensures Min(a, b) == if a <= b then a else b
  {}

  /** The floor of a category, the cap of the injection draw. */
  function Quota(st: Stratum, n: nat): (q: nat)
    ensures st == Injection ==> 4 * q <= n < 4 * q + 4
    ensures st != Injection ==> q >= 5 && (q == 5 || 8 * q <= n) && n < 8 * q + 8
  {
    if st == Injection then n / 4 else if n / 8 > 5 then n / 8 else 5
  }

  lemma {:induction false} OfFacts(s: seq<Candidate>, st: Stratum)
    ensures multiset(Of(s, st)) <= multiset(s)
    ensures forall x :: x in Of(s, st) <==> x in s && x.stratum == st
  {
    if s != [] {
      var front, last := s[..|s| - 1], s[|s| - 1];
      assert Of(s, st) == Of(front, st) + if last.stratum == st then [last] else [];
      hide Of;
      OfFacts(front, st);
      Rejoin(s);
    }
  }

  lemma {:induction false} OfMultiset(s: seq<Candidate>, st: Stratum, x: Candidate)
    ensures multiset(Of(s, st))[x] == if x.stratum == st then multiset(s)[x] else 0
  {
    if s != [] {
      OfMultiset(s[..|s| - 1], st, x);
      assert s == s[..|s| - 1] + [s[|s| - 1]];
    }
  }

  /** A part of the candidates has no more of a stratum; all of them, in any order, have as many. */
  lemma OfPart(part: seq<Candidate>, all: seq<Candidate>, st: Stratum)
    requires multiset(part) <= multiset(all)
    ensures |Of(part, st)| <= |Of(all, st)|
    ensures multiset(part) == multiset(all) ==> |Of(part, st)| == |Of(all, st)|
  {
    var p, a := multiset(Of(part, st)), multiset(Of(all, st));
    forall x
      ensures p[x] <= a[x] && (multiset(part) == multiset(all) ==> p[x] == a[x])
    {
      OfMultiset(part, st, x);
      OfMultiset(all, st, x);
    }
    assert p <= a;
    assert |p| + |a - p| == |a|;
    assert multiset(part) == multiset(all) ==> p == a;
    assert |p| == |Of(part, st)| && |a| == |Of(all, st)|;
  }

  lemma OfPush(s: seq<Candidate>, c: Candidate, st: Stratum)
    ensures Of(s + [c], st) == Of(s, st) + if c.stratum == st then [c] else []
  {
    Halves(s, [c]);
  }

  lemma {:induction false} OfAppend(a: seq<Candidate>, b: seq<Candidate>, st: Stratum)
    ensures Of(a + b, st) == Of(a, st) + Of(b, st)
  {
    if b == [] {
      Empty(a);
      Empty(Of(a, st));
    } else {
      var front, last := b[..|b| - 1], b[|b| - 1];
      OfAppend(a, front, st);
      OfPush(a + front, last, st);
      OfPush(front, last, st);
      hide Of;
      assert b == front + [last];
      Assoc(a, front, [last]);
      Empty(Of(a, st) + Of(front, st));
      Empty(Of(front, st));
      Assoc(Of(a, st), Of(front, st), [last]);
    }
  }

  lemma {:induction false} OfPure(s: seq<Candidate>, st: Stratum, other: Stratum)
    requires forall i :: 0 <= i < |s| ==> s[i].stratum == st
    ensures Of(s, other) == if other == st then s else []
  {
    if s != [] {
      var front, last := s[..|s| - 1], s[|s| - 1];
      OfPure(front, st, other);
      assert Of(s, other) == Of(front, other) + if last.stratum == other then [last] else [];
      hide Of;
      Rejoin(s);
      Empty(Of(front, other));
    }
  }

  function Bucket(buckets: map<Stratum, seq<Candidate>>, st: Stratum): seq<Candidate> {
    if st in buckets then buckets[st] else []
  }

  /** One bucket per stratum present. */
  method Buckets(eligible: seq<Candidate>) returns (buckets: map<Stratum, seq<Candidate>>)
    ensures forall st :: Bucket(buckets, st) == Of(eligible, st)
  {
    buckets := map[];
    var i := 0;
    while i < |eligible|
      invariant 0 <= i <= |eligible|
      invariant forall st :: Bucket(buckets, st) == Of(eligible[..i], st)
    {
      var c := eligible[i];
      assert eligible[..i + 1][..i] == eligible[..i];
      buckets := buckets[c.stratum := Bucket(buckets, c.stratum) + [c]];
      i := i + 1;
    }
    assert eligible[..i] == eligible;
  }

  /** After the draws of some strata: each of them has its quota of what is there. */
  ghost predicate Drawn(eligible: seq<Candidate>, selected: seq<Candidate>, n: nat, done: seq<Stratum>) {
    && Distinct(selected) && Within(selected, eligible)
    && (Distinct(eligible) ==>
          forall st :: |Of(selected, st)| == if st in done then Min(Quota(st, n), |Of(eligible, st)|) else 0)
  }

  lemma DrawnMore(eligible: seq<Candidate>, selected: seq<Candidate>, n: nat, done: seq<Stratum>, st: Stratum,
                  draw: seq<Candidate>)
    requires Drawn(eligible, selected, n, done) && st !in done
    requires multiset(draw) <= multiset(Of(eligible, st)) && |draw| == Min(Quota(st, n), |Of(eligible, st)|)
    ensures Drawn(eligible, PutAll(selected, draw), n, done + [st])
    ensures Distinct(eligible) ==> |PutAll(selected, draw)| == |selected| + |draw|
  {
    OfFacts(eligible, st);
    PartFacts(draw, Of(eligible, st));
    hide Put, PutAll, HasId, Of, Quota, Min;
    PutAllFacts(selected, draw, eligible);
    if Distinct(eligible) {
      OwnStratum(eligible, draw, st);
      assert |Of(selected, st)| == 0;
      StrataApart(eligible, selected, st, draw);
      hide Distinct, Within;
      forall other
        ensures |Of(PutAll(selected, draw), other)|
             == if other in done + [st] then Min(Quota(other, n), |Of(eligible, other)|) else 0
      {
        DrawnCount(eligible, selected, n, done, st, draw, other);
      }
    }
  }

  lemma DrawnCount(eligible: seq<Candidate>, selected: seq<Candidate>, n: nat, done: seq<Stratum>, st: Stratum,
                   draw: seq<Candidate>, other: Stratum)
    requires st !in done && forall i :: 0 <= i < |draw| ==> draw[i].stratum == st
    requires |draw| == Min(Quota(st, n), |Of(eligible, st)|)
    requires |Of(selected, other)| == if other in done then Min(Quota(other, n), |Of(eligible, other)|) else 0
    ensures |Of(selected + draw, other)|
         == if other in done + [st] then Min(Quota(other, n), |Of(eligible, other)|) else 0
  {
    OfAppend(selected, draw, other);
    OfPure(draw, st, other);
    hide Of, Min, Quota;
  }

  lemma OwnStratum(eligible: seq<Candidate>, draw: seq<Candidate>, st: Stratum)
    requires Distinct(eligible) && multiset(draw) <= multiset(Of(eligible, st))
    ensures Distinct(draw) && Within(draw, eligible) && forall i :: 0 <= i < |draw| ==> draw[i].stratum == st
  {
    OfFacts(eligible, st);
    PartFacts(Of(eligible, st), eligible);
    PartFacts(draw, Of(eligible, st));
  }

  lemma StrataApart(eligible: seq<Candidate>, selected: seq<Candidate>, st: Stratum, draw: seq<Candidate>)
    requires Distinct(eligible) && Distinct(selected) && Within(selected, eligible) && Of(selected, st) == []
    requires Distinct(draw) && Within(draw, eligible) && forall i :: 0 <= i < |draw| ==> draw[i].stratum == st
    ensures Distinct(selected + draw)
  {
    OfFacts(selected, st);
    hide Of;
    forall i, j | 0 <= i < |selected| && 0 <= j < |draw|
      ensures selected[i].caseId != draw[j].caseId
    {
      assert selected[i] in selected && selected[i] !in Of(selected, st);
      assert selected[i] in eligible && draw[j] in eligible;
    }
  }

  /** What the floors and the injection draw come to together. */
  function Floors(eligible: seq<Candidate>, n: nat, strata: seq<Stratum>): nat {
    if strata == [] then 0
    else
      var last := strata[|strata| - 1];
      Floors(eligible, n, strata[..|strata| - 1]) + Min(Quota(last, n), |Of(eligible, last)|)
  }

  const ALL_STRATA: seq<Stratum> := STRATA_CATEGORIES + [Injection]

  /** What one stratum's draw may be: all of it in order, or its quota of it in any order. */
  ghost predicate DrawOf(eligible: seq<Candidate>, n: nat, st: Stratum, draw: seq<Candidate>) {
    var members := Of(eligible, st);
    if |members| <= Quota(st, n) then draw == members
    else |draw| == Quota(st, n) && multiset(draw) <= multiset(members)
  }

  /** What the draws of some strata, one after the other, may select. */
  ghost predicate Draws(eligible: seq<Candidate>, n: nat, strata: seq<Stratum>, selected: seq<Candidate>)
    decreases |strata|
  {
    if strata == [] then selected == []
    else
      exists before, draw ::
        && Draws(eligible, n, strata[..|strata| - 1], before) && DrawOf(eligible, n, strata[|strata| - 1], draw)
        && selected == PutAll(before, draw)
  }

  lemma DrawsPush(eligible: seq<Candidate>, n: nat, strata: seq<Stratum>, before: seq<Candidate>, st: Stratum,
                  draw: seq<Candidate>)
    requires Draws(eligible, n, strata, before) && DrawOf(eligible, n, st, draw)
    ensures Draws(eligible, n, strata + [st], PutAll(before, draw))
  {
    Halves(strata, [st]);
  }

  lemma DrawFacts(eligible: seq<Candidate>, n: nat, st: Stratum, draw: seq<Candidate>)
    requires DrawOf(eligible, n, st, draw)
    ensures |draw| == Min(Quota(st, n), |Of(eligible, st)|) && multiset(draw) <= multiset(Of(eligible, st))
  {}

  /** Draw one stratum's quota into the selection. */
  method DrawInto(eligible: seq<Candidate>, selected: seq<Candidate>, n: nat, ghost done: seq<Stratum>, st: Stratum,
                  members: seq<Candidate>)
    returns (r: seq<Candidate>)
    requires Drawn(eligible, selected, n, done) && st !in done && members == Of(eligible, st)
    requires Draws(eligible, n, done, selected) && |selected| <= Floors(eligible, n, done)
    requires Distinct(eligible) ==> |selected| == Floors(eligible, n, done)
    ensures Drawn(eligible, r, n, done + [st])
    ensures Draws(eligible, n, done + [st], r) && |r| <= Floors(eligible, n, done + [st])
    ensures Distinct(eligible) ==> |r| == Floors(eligible, n, done + [st])
  {
    MinIs(Quota(st, n), |members|);
    FloorsPush(eligible, n, done, st);
    hide Of, Put, PutAll, Quota, Min, Floors, Drawn, Draws, Distinct;
    var draw := Draw(members, Min(Quota(st, n), |members|));
    assert DrawOf(eligible, n, st, draw);
    DrawnMore(eligible, selected, n, done, st, draw);
    DrawsPush(eligible, n, done, selected, st, draw);
    PutAllSize(selected, draw);
    r := PutEach(selected, draw);
  }

  lemma {:induction false} PutAllSize(selected: seq<Candidate>, more: seq<Candidate>)
    ensures |PutAll(selected, more)| <= |selected| + |more|
  {
    if more != [] {
      PutAllSize(selected, more[..|more| - 1]);
      PutFacts(PutAll(selected, more[..|more| - 1]), more[|more| - 1]);
      hide Put;
    }
  }

  lemma FloorsPush(eligible: seq<Candidate>, n: nat, done: seq<Stratum>, st: Stratum)
    ensures Floors(eligible, n, done + [st]) == Floors(eligible, n, done) + Min(Quota(st, n), |Of(eligible, st)|)
  {
    Halves(done, [st]);
  }

  method PutEach(selected: seq<Candidate>, draw: seq<Candidate>) returns (r: seq<Candidate>)
    ensures r == PutAll(selected, draw)
  {
    r := selected;
    var i := 0;
    while i < |draw|
      invariant 0 <= i <= |draw| && r == PutAll(selected, draw[..i])
    {
      assert draw[..i + 1] == draw[..i] + [draw[i]];
      PutAllPush(selected, draw[..i], draw[i]);
      r := Put(r, draw[i]);
      i := i + 1;
    }
    assert draw[..i] == draw;
  }

  predicate NoRepeats(strata: seq<Stratum>) {
    forall i, j :: 0 <= i < j < |strata| ==> strata[i] != strata[j]
  }

  /** Every category present gets its floor. */
  method DrawCategories(eligible: seq<Candidate>, n: nat, buckets: map<Stratum, seq<Candidate>>,
                        categories: seq<Stratum>)
    returns (selected: seq<Candidate>)
    requires NoRepeats(categories) && forall st :: Bucket(buckets, st) == Of(eligible, st)
    ensures Drawn(eligible, selected, n, categories)
    ensures Draws(eligible, n, categories, selected) && |selected| <= Floors(eligible, n, categories)
    ensures Distinct(eligible) ==> |selected| == Floors(eligible, n, categories)
  {
    hide Drawn, Draws, Floors, Of, Bucket, Distinct;
    selected := [];
    NothingDrawn(eligible, n);
    var i := 0;
    assert categories[..i] == [];
    while i < |categories|
      invariant 0 <= i <= |categories| && Drawn(eligible, selected, n, categories[..i])
      invariant Draws(eligible, n, categories[..i], selected) && |selected| <= Floors(eligible, n, categories[..i])
      invariant Distinct(eligible) ==> |selected| == Floors(eligible, n, categories[..i])
    {
      var st := categories[i];
      assert categories[..i + 1] == categories[..i] + [st];
      selected := DrawInto(eligible, selected, n, categories[..i], st, Bucket(buckets, st));
      i := i + 1;
    }
    assert categories[..i] == categories;
  }

  /** The categories' floors, then the injection candidates up to their cap. */
  method DrawStrata(eligible: seq<Candidate>, n: nat) returns (selected: seq<Candidate>)
    ensures Drawn(eligible, selected, n, ALL_STRATA)
    ensures Draws(eligible, n, ALL_STRATA, selected) && |selected| <= Floors(eligible, n, ALL_STRATA)
    ensures Distinct(eligible) ==> |selected| == Floors(eligible, n, ALL_STRATA)
  {
    hide Drawn, Draws, Floors, Of, Bucket, Distinct;
    var buckets := Buckets(eligible);
    selected := DrawCategories(eligible, n, buckets, STRATA_CATEGORIES);
    selected := DrawInto(eligible, selected, n, STRATA_CATEGORIES, Injection, Bucket(buckets, Injection));
  }

  lemma NothingDrawn(eligible: seq<Candidate>, n: nat)
    ensures Drawn(eligible, [], n, []) && Draws(eligible, n, [], []) && Floors(eligible, n, []) == 0
  {}
}
