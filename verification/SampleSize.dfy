/** When a sample has its full size: the target, or every case there is. Rows that repeat a case take
    places in the fill, and whether they can cost the sample a case is decided by the groups they lie in. */
module SampleSize {
  import opened RoundRobin
  import opened Sampler
  import opened Sampling
  import opened Seqs
  import opened Shares

  /** The rows of one case are rows of one alert, so they share its sensor and day. */
  ghost predicate OneKeyEach(rows: seq<Candidate>) {
    forall x, y :: x in rows && y in rows && x.caseId == y.caseId ==> x.key == y.key
  }

  // ---- One group of the rows. ----

  function OfKey(s: seq<Candidate>, k: Key): seq<Candidate> {
    if s == [] then [] else OfKey(s[..|s| - 1], k) + if s[|s| - 1].key == k then [s[|s| - 1]] else []
  }

  lemma {:induction false} OfKeyFacts(s: seq<Candidate>, k: Key, x: Candidate)
    ensures |OfKey(s, k)| == CountKey(s, k)
    ensures multiset(OfKey(s, k))[x] == if x.key == k then multiset(s)[x] else 0
  {
    if s != [] {
      OfKeyFacts(s[..|s| - 1], k, x);
      Rejoin(s);
    }
  }

  lemma OfKeyPart(part: seq<Candidate>, all: seq<Candidate>, k: Key)
    requires multiset(part) <= multiset(all)
    ensures multiset(OfKey(part, k)) <= multiset(OfKey(all, k))
  {
    forall x
      ensures multiset(OfKey(part, k))[x] <= multiset(OfKey(all, k))[x]
    {
      OfKeyFacts(part, k, x);
      OfKeyFacts(all, k, x);
    }
  }

  lemma {:induction false} FlatHasNot(groups: seq<Group>, x: Candidate)
    requires AllAtHome(groups) && forall g :: 0 <= g < |groups| ==> groups[g].key != x.key
    ensures multiset(Flat(groups))[x] == 0
  {
    if groups != [] {
      var front, last := groups[..|groups| - 1], groups[|groups| - 1];
      FlatHasNot(front, x);
      NotAtHome(last, x);
    }
  }

  lemma NotAtHome(g: Group, x: Candidate)
    requires AtHome(g) && g.key != x.key
    ensures multiset(g.members)[x] == 0
  {
    assert forall i :: 0 <= i < |g.members| ==> g.members[i] != x;
  }

  lemma {:induction false} FlatHas(groups: seq<Group>, g: nat, x: Candidate)
    requires Sorted(groups) && AllAtHome(groups) && g < |groups| && groups[g].key == x.key
    ensures multiset(Flat(groups))[x] == multiset(groups[g].members)[x]
  {
    var n := |groups| - 1;
    var front, last := groups[..n], groups[n];
    assert AtHome(last);
    if g < n {
      assert Less(groups[g].key, last.key);
      FlatHas(front, g, x);
      NotAtHome(last, x);
    } else {
      assert forall i :: 0 <= i < n ==> Less(groups[i].key, groups[g].key);
      FlatHasNot(front, x);
    }
  }

  /** A group holds the pool's rows of its key. */
  lemma MembersAre(pool: seq<Candidate>, g: nat)
    requires g < |Grouped(pool)|
    ensures multiset(Grouped(pool)[g].members) == multiset(OfKey(pool, Grouped(pool)[g].key))
  {
    GroupedFacts(pool);
    var groups := Grouped(pool);
    forall x
      ensures multiset(groups[g].members)[x] == multiset(OfKey(pool, groups[g].key))[x]
    {
      OfKeyFacts(pool, groups[g].key, x);
      if x.key == groups[g].key {
        FlatHas(groups, g, x);
      } else {
        NotAtHome(groups[g], x);
      }
    }
  }

  lemma GroupOf(pool: seq<Candidate>, c: Candidate) returns (g: nat)
    requires c in pool
    ensures g < |Grouped(pool)| && Grouped(pool)[g].key == c.key
  {
    GroupedFacts(pool);
    var groups := Grouped(pool);
    CountFlat(groups, c.key);
    CountPermuted(Flat(groups), pool, c.key);
    CountNone(pool, c.key);
    g :| g < |groups| && groups[g].key == c.key;
  }

  // ---- The condition. ----

  /** The rows of the case's group that are not the case's. */
  function Others(pool: seq<Candidate>, c: Candidate): nat {
    |WithoutId(OfKey(pool, c.key), c.caseId)|
  }

  /** Filling so many places from the pool cannot waste one. With as many cases as places, no group of a
      repeated case comes to its second turn; with fewer, every case's group gives more than it has of
      others. Both are read off the sizes of the groups. */
  ghost predicate Safe(pool: seq<Candidate>, places: nat) {
    if places <= |Ids(pool)| then
      forall c :: c in pool && Copies(pool, c.caseId) >= 2 ==> places <= |Ahead(pool, c.key, 1)|
    else
      forall c :: c in pool ==> |Ahead(pool, c.key, Others(pool, c))| < places
  }

  lemma SafeFillsUp(pool: seq<Candidate>, places: nat, picks: seq<Candidate>)
    requires OneKeyEach(pool) && FillOf(picks, pool, places) && Safe(pool, places)
    ensures |Ids(picks)| == Min(places, |Ids(pool)|)
  {
    MinIs(places, |Ids(pool)|);
    MinIs(places, |pool|);
    IdsDistinct(pool);
    IdsDistinct(picks);
    if places <= |Ids(pool)| {
      if !Distinct(picks) {
        RepeatIsUnsafe(pool, places, picks);
      }
    } else {
      AllCasesTaken(pool, places, picks);
    }
  }

  lemma RepeatIsUnsafe(pool: seq<Candidate>, places: nat, picks: seq<Candidate>)
    requires OneKeyEach(pool) && FillOf(picks, pool, places) && !Distinct(picks)
    ensures exists c :: c in pool && Copies(pool, c.caseId) >= 2 && |Ahead(pool, c.key, 1)| < places
  {
    var i, j :| 0 <= i < j < |picks| && picks[i].caseId == picks[j].caseId;
    var c, d := picks[i], picks[j];
    PartFacts(picks, pool);
    assert c in pool && d in pool;
    TwoOf(picks, i, j);
    CopiesOfPart([c, d], pool, c.caseId);
    TwoCopies(c, d);
    OfKeyPart([c, d], picks, c.key);
    CountPart([c, d], picks, c.key);
    GivenIff(picks, pool, places, c.key, 1);
  }

  lemma TwoOf(s: seq<Candidate>, i: nat, j: nat)
    requires i < j < |s|
    ensures multiset([s[i], s[j]]) <= multiset(s)
  {
    assert s == s[..i] + [s[i]] + s[i + 1..j] + [s[j]] + s[j + 1..];
  }

  lemma TwoCopies(c: Candidate, d: Candidate)
    ensures c.caseId == d.caseId ==> Copies([c, d], c.caseId) == 2
    ensures c.key == d.key ==> CountKey([c, d], c.key) == 2
  {
    assert [c, d][..1] == [c] && [c][..0] == [];
    assert WithId([c], c.caseId) == [c];
    CountPush([], c, c.key);
    CountPush([c], d, c.key);
    assert [] + [c] == [c] && [c] + [d] == [c, d];
  }

  lemma WithoutOfPart(part: seq<Candidate>, all: seq<Candidate>, id: string)
    requires multiset(part) <= multiset(all)
    ensures |WithoutId(part, id)| <= |WithoutId(all, id)|
  {
    SplitById(part, id);
    SplitById(all, id);
    var p, a := multiset(WithoutId(part, id)), multiset(WithoutId(all, id));
    forall x
      ensures p[x] <= a[x]
    {
      assert p[x] + multiset(WithId(part, id))[x] == multiset(part)[x];
      assert a[x] + multiset(WithId(all, id))[x] == multiset(all)[x];
      if x.caseId == id {
        assert x !in WithoutId(part, id);
      } else {
        assert x !in WithId(all, id);
      }
    }
    assert p <= a;
    assert |a| == |p| + |a - p|;
  }

  lemma AllCasesTaken(pool: seq<Candidate>, places: nat, picks: seq<Candidate>)
    requires OneKeyEach(pool) && FillOf(picks, pool, places)
    requires forall c :: c in pool ==> |Ahead(pool, c.key, Others(pool, c))| < places
    ensures Ids(picks) == Ids(pool)
  {
    PartFacts(picks, pool);
    IdsOfPart(picks, pool);
    forall id | id in Ids(pool)
      ensures id in Ids(picks)
    {
      var c :| c in pool && c.caseId == id;
      if id !in Ids(picks) {
        IdOfIds(picks, id);
        OnlyOthersTaken(pool, picks, c);
        OthersAreFewer(pool, c);
        GivenIff(picks, pool, places, c.key, Others(pool, c));
      }
    }
  }

  lemma OnlyOthersTaken(pool: seq<Candidate>, picks: seq<Candidate>, c: Candidate)
    requires multiset(picks) <= multiset(pool) && !HasId(picks, c.caseId)
    ensures CountKey(picks, c.key) <= Others(pool, c)
  {
    var mine := OfKey(picks, c.key);
    OfKeyFacts(picks, c.key, c);
    OfKeyPart(picks, pool, c.key);
    WithoutOfPart(mine, OfKey(pool, c.key), c.caseId);
    SplitById(mine, c.caseId);
    forall x | x in mine
      ensures x.caseId != c.caseId
    {
      OfKeyFacts(picks, c.key, x);
      assert x in multiset(mine);
      assert x in multiset(picks);
      var i :| 0 <= i < |picks| && picks[i] == x;
    }
    NoneOwn(mine, c.caseId);
  }

  lemma {:induction false} NoneOwn(s: seq<Candidate>, id: string)
    requires forall x :: x in s ==> x.caseId != id
    ensures WithId(s, id) == []
  {
    if s != [] {
      NoneOwn(s[..|s| - 1], id);
      assert s[|s| - 1] in s;
    }
  }

  lemma OthersAreFewer(pool: seq<Candidate>, c: Candidate)
    requires c in pool
    ensures Others(pool, c) < CountKey(pool, c.key)
  {
    var mine := OfKey(pool, c.key);
    OfKeyFacts(pool, c.key, c);
    assert c in multiset(mine);
    SplitById(mine, c.caseId);
    assert c !in multiset(WithoutId(mine, c.caseId));
    assert c in multiset(WithId(mine, c.caseId));
  }

  // ---- A shuffle that wastes a place. ----

  /** What was taken of a group is the end of its members. */
  lemma TakenFromEnd(pool: seq<Candidate>, groups: seq<Group>, places: nat, g: nat, x: Candidate)
    returns (end: seq<Candidate>)
    requires Shuffles(groups, Grouped(pool)) && g < |groups| && x.key == groups[g].key
    ensures var picks := Filled(groups, Turn(0, 0), places);
      && |end| == CountKey(picks, groups[g].key) <= |groups[g].members|
      && end == groups[g].members[|groups[g].members| - |end|..]
      && multiset(picks)[x] == multiset(end)[x]
  {
    hide Filled, Shuffles, FillOf, CountKey, Flat;
    var picks := Filled(groups, Turn(0, 0), places);
    var rest := FilledIsFair(groups, pool, places);
    var members, left := groups[g].members, rest[g].members;
    end := members[|left|..];
    FlatHas(groups, g, x);
    FlatHas(rest, g, x);
    assert members == left + end;
    assert (multiset(picks) + multiset(Flat(rest)))[x] == multiset(Flat(groups))[x];
  }

  /** The group's rows in another order. */
  lemma Rearranged(pool: seq<Candidate>, g: nat, members: seq<Candidate>) returns (groups: seq<Group>)
    requires g < |Grouped(pool)| && multiset(members) == multiset(Grouped(pool)[g].members)
    ensures Shuffles(groups, Grouped(pool)) && |groups| == |Grouped(pool)|
    ensures groups[g].members == members && groups[g].key == Grouped(pool)[g].key
  {
    groups := Grouped(pool)[g := Grouped(pool)[g].(members := members)];
  }

  /** A shuffle that takes two rows of one case while cases go without. */
  lemma SecondTurnWastes(pool: seq<Candidate>, places: nat, c: Candidate) returns (groups: seq<Group>)
    requires OneKeyEach(pool) && c in pool && Copies(pool, c.caseId) >= 2 && |Ahead(pool, c.key, 1)| < places
    ensures Shuffles(groups, Grouped(pool)) && |Ids(Filled(groups, Turn(0, 0), places))| < places
  {
    var g := GroupOf(pool, c);
    MembersAre(pool, g);
    var id, members := c.caseId, Grouped(pool)[g].members;
    SplitById(members, id);
    CopiesInGroup(pool, c, members);
    var own, others := WithId(members, id), WithoutId(members, id);
    AllOfKey(pool, c, members, own);
    groups := Rearranged(pool, g, others + own);
    TwoFromEnd(pool, groups, places, g, others, own, c);
  }

  lemma TwoFromEnd(pool: seq<Candidate>, groups: seq<Group>, places: nat, g: nat, others: seq<Candidate>,
                   own: seq<Candidate>, c: Candidate)
    requires OneKeyEach(pool) && c in pool && Copies(pool, c.caseId) >= 2 && |Ahead(pool, c.key, 1)| < places
    requires Shuffles(groups, Grouped(pool)) && g < |groups| && groups[g] == Group(c.key, others + own)
    requires |own| >= 2 && forall x :: x in own ==> x.caseId == c.caseId && x.key == c.key
    ensures |Ids(Filled(groups, Turn(0, 0), places))| < places
  {
    hide Filled, FillOf, Shuffles, OneKeyEach, Grouped, Ids, Ahead, CountKey, Copies;
    var fair := FilledIsFair(groups, pool, places);
    var picks := Filled(groups, Turn(0, 0), places);
    CountAtLeast(pool, c);
    GivenIff(picks, pool, places, c.key, 1);
    FillSize(picks, pool, places);
    var a, b := own[|own| - 2], own[|own| - 1];
    assert a in own && b in own;
    var endA := TakenFromEnd(pool, groups, places, g, a);
    var endB := TakenFromEnd(pool, groups, places, g, b);
    LastTwo(others + own, endA, own);
    TwoTaken(picks, endA, a, b);
    RepeatsOfPart([a, b], picks);
    SameCase(a, b);
  }

  lemma FillSize(picks: seq<Candidate>, pool: seq<Candidate>, places: nat)
    requires FillOf(picks, pool, places)
    ensures |picks| <= places && multiset(picks) <= multiset(pool)
  {}

  lemma AllOfKey(pool: seq<Candidate>, c: Candidate, members: seq<Candidate>, own: seq<Candidate>)
    requires multiset(members) == multiset(OfKey(pool, c.key)) && multiset(own) <= multiset(members)
    ensures forall x :: x in own ==> x.key == c.key
  {
    forall x | x in own
      ensures x.key == c.key
    {
      OfKeyFacts(pool, c.key, x);
      assert x in multiset(own);
    }
  }

  lemma CountAtLeast(pool: seq<Candidate>, c: Candidate)
    requires OneKeyEach(pool) && c in pool && Copies(pool, c.caseId) >= 2
    ensures CountKey(pool, c.key) >= 2
  {
    var own := WithId(pool, c.caseId);
    SplitById(pool, c.caseId);
    forall i | 0 <= i < |own|
      ensures own[i].key == c.key
    {
      assert own[i] in multiset(own) && own[i] in own;
      assert own[i] in multiset(pool);
    }
    CountAll(own, c.key, c.key);
    assert multiset(own) <= multiset(pool);
    CountPart(own, pool, c.key);
  }

  /** All rows of the case lie in its group. */
  lemma CopiesInGroup(pool: seq<Candidate>, c: Candidate, members: seq<Candidate>)
    requires OneKeyEach(pool) && c in pool && multiset(members) == multiset(OfKey(pool, c.key))
    ensures Copies(members, c.caseId) == Copies(pool, c.caseId)
    ensures |WithoutId(members, c.caseId)| == Others(pool, c)
  {
    var mine := OfKey(pool, c.key);
    CopiesOfPart(members, mine, c.caseId);
    CopiesOfPart(mine, members, c.caseId);
    WithoutOfPart(members, mine, c.caseId);
    WithoutOfPart(mine, members, c.caseId);
    OwnInGroup(pool, c);
    CopiesOfPart(mine, pool, c.caseId);
    CopiesOfPart(WithId(pool, c.caseId), mine, c.caseId);
    SplitById(pool, c.caseId);
    OwnOnly(WithId(pool, c.caseId), c.caseId);
  }

  lemma OwnInGroup(pool: seq<Candidate>, c: Candidate)
    requires OneKeyEach(pool) && c in pool
    ensures multiset(WithId(pool, c.caseId)) <= multiset(OfKey(pool, c.key)) <= multiset(pool)
  {
    var mine, own := OfKey(pool, c.key), WithId(pool, c.caseId);
    SplitById(pool, c.caseId);
    forall x
      ensures multiset(own)[x] <= multiset(mine)[x] <= multiset(pool)[x]
    {
      OfKeyFacts(pool, c.key, x);
      assert multiset(own)[x] + multiset(WithoutId(pool, c.caseId))[x] == multiset(pool)[x];
      if x in own {
        assert x in multiset(own) && x in multiset(pool);
      }
    }
  }

  lemma {:induction false} OwnOnly(s: seq<Candidate>, id: string)
    requires forall x :: x in s ==> x.caseId == id
    ensures WithId(s, id) == s
  {
    if s != [] {
      OwnOnly(s[..|s| - 1], id);
      assert s[|s| - 1] in s;
      Rejoin(s);
    }
  }

  lemma LastTwo(members: seq<Candidate>, end: seq<Candidate>, own: seq<Candidate>)
    requires |own| >= 2 && |end| >= 2 && |own| <= |members| && members[|members| - |own|..] == own
    requires |end| <= |members| && end == members[|members| - |end|..]
    ensures multiset([own[|own| - 2], own[|own| - 1]]) <= multiset(end)
  {
    var m := |end|;
    assert end[m - 2] == own[|own| - 2] && end[m - 1] == own[|own| - 1];
    TwoOf(end, m - 2, m - 1);
  }

  lemma TwoTaken(picks: seq<Candidate>, end: seq<Candidate>, a: Candidate, b: Candidate)
    requires multiset([a, b]) <= multiset(end)
    requires multiset(picks)[a] == multiset(end)[a] && multiset(picks)[b] == multiset(end)[b]
    ensures multiset([a, b]) <= multiset(picks)
  {
    forall x
      ensures multiset([a, b])[x] <= multiset(picks)[x]
    {
      assert multiset([a, b])[x] <= multiset(end)[x];
    }
  }

  lemma SameCase(a: Candidate, b: Candidate)
    requires a.caseId == b.caseId
    ensures |[a, b]| == 2 && |Ids([a, b])| == 1
  {
    assert a in [a, b];
    assert Ids([a, b]) == {a.caseId};
  }

  /** A shuffle that leaves a case out while places go to repeats. */
  lemma CaseLeftOut(pool: seq<Candidate>, places: nat, c: Candidate) returns (groups: seq<Group>)
    requires OneKeyEach(pool) && c in pool && places <= |Ahead(pool, c.key, Others(pool, c))|
    ensures Shuffles(groups, Grouped(pool)) && |Ids(Filled(groups, Turn(0, 0), places))| < |Ids(pool)|
  {
    var g := GroupOf(pool, c);
    MembersAre(pool, g);
    var id, members := c.caseId, Grouped(pool)[g].members;
    SplitById(members, id);
    CopiesInGroup(pool, c, members);
    var own, others := WithId(members, id), WithoutId(members, id);
    groups := Rearranged(pool, g, own + others);
    NoneFromEnd(pool, groups, places, g, own, others, c);
  }

  lemma NoneFromEnd(pool: seq<Candidate>, groups: seq<Group>, places: nat, g: nat, own: seq<Candidate>,
                    others: seq<Candidate>, c: Candidate)
    requires OneKeyEach(pool) && c in pool && |others| == Others(pool, c)
    requires places <= |Ahead(pool, c.key, Others(pool, c))|
    requires Shuffles(groups, Grouped(pool)) && g < |groups| && groups[g] == Group(c.key, own + others)
    requires forall x :: x in others ==> x.caseId != c.caseId
    ensures |Ids(Filled(groups, Turn(0, 0), places))| < |Ids(pool)|
  {
    hide Filled, FillOf, Shuffles, Grouped, Ahead, CountKey, Ids, Others, Distinct, Within;
    var fair := FilledIsFair(groups, pool, places);
    var picks := Filled(groups, Turn(0, 0), places);
    GivenIff(picks, pool, places, c.key, Others(pool, c));
    FillSize(picks, pool, places);
    PartFacts(picks, pool);
    IdsOfPart(picks, pool);
    if c.caseId in Ids(picks) {
      var x := RowOf(picks, c.caseId);
      RowOfPart(picks, pool, x);
      assert x.key == c.key;
      var end := TakenFromEnd(pool, groups, places, g, x);
      assert x in multiset(picks);
      assert x in multiset(end);
      EndOf(own, others, end, x);
    }
    IdOfRow(pool, c);
    Smaller(Ids(picks), Ids(pool), c.caseId);
  }

  lemma RowOfPart(part: seq<Candidate>, all: seq<Candidate>, x: Candidate)
    requires multiset(part) <= multiset(all) && x in part
    ensures x in all
  {
    assert x in multiset(part);
  }

  lemma Smaller(a: set<string>, b: set<string>, id: string)
    requires a <= b && id in b && id !in a
    ensures |a| < |b|
  {
    assert |b| == |a| + |b - a| && id in b - a;
  }

  lemma RowOf(s: seq<Candidate>, id: string) returns (x: Candidate)
    requires id in Ids(s)
    ensures x in s && x.caseId == id
  {
    x :| x in s && x.caseId == id;
  }

  lemma IdOfRow(s: seq<Candidate>, c: Candidate)
    requires c in s
    ensures c.caseId in Ids(s)
  {}

  lemma EndOf(own: seq<Candidate>, others: seq<Candidate>, end: seq<Candidate>, x: Candidate)
    requires |end| <= |others| && end == (own + others)[|own + others| - |end|..] && x in end
    ensures x in others
  {
    var i :| 0 <= i < |end| && end[i] == x;
    assert end[i] == others[|others| - |end| + i];
  }

  /** A fill has its full size for every shuffle if and only if the pool is safe for the places. */
  lemma FillIsFullIff(pool: seq<Candidate>, places: nat)
    requires OneKeyEach(pool)
    ensures (forall groups :: Shuffles(groups, Grouped(pool)) ==>
               |Ids(Filled(groups, Turn(0, 0), places))| == Min(places, |Ids(pool)|))
            <==> Safe(pool, places)
  {
    hide Filled, Shuffles, FillOf, OneKeyEach, Ids;
    if Safe(pool, places) {
      hide Safe;
      forall groups | Shuffles(groups, Grouped(pool))
        ensures |Ids(Filled(groups, Turn(0, 0), places))| == Min(places, |Ids(pool)|)
      {
        var rest := FilledIsFair(groups, pool, places);
        SafeFillsUp(pool, places, Filled(groups, Turn(0, 0), places));
      }
    } else {
      var groups := UnsafeShuffle(pool, places);
    }
  }

  lemma UnsafeShuffle(pool: seq<Candidate>, places: nat) returns (groups: seq<Group>)
    requires OneKeyEach(pool) && !Safe(pool, places)
    ensures Shuffles(groups, Grouped(pool))
    ensures |Ids(Filled(groups, Turn(0, 0), places))| < Min(places, |Ids(pool)|)
  {
    hide Filled, Shuffles, OneKeyEach;
    MinIs(places, |Ids(pool)|);
    if places <= |Ids(pool)| {
      var c :| c in pool && Copies(pool, c.caseId) >= 2 && |Ahead(pool, c.key, 1)| < places;
      groups := SecondTurnWastes(pool, places, c);
    } else {
      var c :| c in pool && places <= |Ahead(pool, c.key, Others(pool, c))|;
      groups := CaseLeftOut(pool, places, c);
    }
  }

  // ---- The sample. ----

  /** Some draws and some shuffle give this sample. */
  ghost predicate CanBe(eligible: seq<Candidate>, n: nat, r: seq<Candidate>) {
    exists selected, groups :: SampleOf(eligible, n, selected, groups, r)
  }

  ghost predicate IsFull(eligible: seq<Candidate>, n: nat, r: seq<Candidate>) {
    |r| == Min(n, |Ids(eligible)|)
  }

  /** What a selection leaves is safe for the places it leaves. */
  ghost predicate SafeAfter(eligible: seq<Candidate>, n: nat, selected: seq<Candidate>) {
    |selected| <= n && Safe(Missing(eligible, selected), n - |selected|)
  }

  lemma {:induction false} DrawsAre(eligible: seq<Candidate>, n: nat, strata: seq<Stratum>, selected: seq<Candidate>)
    requires Draws(eligible, n, strata, selected)
    ensures Distinct(selected) && Within(selected, eligible)
    decreases |strata|
  {
    if strata != [] {
      var st := strata[|strata| - 1];
      var before, draw :|
        && Draws(eligible, n, strata[..|strata| - 1], before) && DrawOf(eligible, n, st, draw)
        && selected == PutAll(before, draw);
      DrawsAre(eligible, n, strata[..|strata| - 1], before);
      DrawFacts(eligible, n, st, draw);
      OfFacts(eligible, st);
      assert multiset(draw) <= multiset(eligible);
      PartFacts(draw, eligible);
      hide Draws, DrawOf, PutAll, Distinct, Within, Of;
      PutAllFacts(before, draw, eligible);
    }
  }

  lemma SelectionIs(eligible: seq<Candidate>, n: nat, selected: seq<Candidate>)
    requires Selection(eligible, n, selected)
    ensures Distinct(selected) && Within(selected, eligible) && |selected| <= n
  {
    var drawn :| Draws(eligible, n, ALL_STRATA, drawn) && ClampOf(drawn, n, selected);
    DrawsAre(eligible, n, ALL_STRATA, drawn);
    if |drawn| > n {
      PartFacts(selected, drawn);
      ClampedWithin(selected, drawn, eligible);
    }
  }

  /** A sample has its full size exactly when its fill has. */
  lemma SampleIsFullIff(eligible: seq<Candidate>, n: nat, selected: seq<Candidate>, groups: seq<Group>,
                        r: seq<Candidate>)
    requires SampleOf(eligible, n, selected, groups, r)
    ensures |selected| <= n && SizeBounds(eligible, r, n)
    ensures var pool, places := Missing(eligible, selected), n - |selected|;
      IsFull(eligible, n, r) <==> |Ids(Filled(groups, Turn(0, 0), places))| == Min(places, |Ids(pool)|)
  {
    hide Selection, Filled, Missing, Shuffles, FillOf, SizeBounds, Ids, Distinct, Within;
    SelectionIs(eligible, n, selected);
    var pool := Missing(eligible, selected);
    var rest := FilledIsFair(groups, pool, n - |selected|);
    SizeIsBounded(eligible, selected, groups, n, r);
    MinIs(n, |Ids(eligible)|);
    MinIs(n - |selected|, |Ids(pool)|);
  }

  lemma PartOneKeyEach(eligible: seq<Candidate>, selected: seq<Candidate>)
    requires OneKeyEach(eligible)
    ensures OneKeyEach(Missing(eligible, selected))
  {
    MissingFacts(eligible, selected);
  }

  /** Between the bounds: no sample of rows without a repeat, or of no more rows than places, is short. */
  lemma SizeIsExact(eligible: seq<Candidate>, n: nat, r: seq<Candidate>)
    requires CanBe(eligible, n, r)
    ensures SizeBounds(eligible, r, n)
    ensures Distinct(eligible) || |eligible| <= n ==> IsFull(eligible, n, r)
  {
    var selected, groups :| SampleOf(eligible, n, selected, groups, r);
    SampleIsFullIff(eligible, n, selected, groups, r);
    IdsDistinct(eligible);
    MinIs(n, |Ids(eligible)|);
    MinIs(n, |eligible|);
  }

  /** Every sample has its full size if and only if whatever the draws leave is safe for the places they
      leave. */
  lemma FullSizeIff(eligible: seq<Candidate>, n: nat)
    requires OneKeyEach(eligible)
    ensures (forall r :: CanBe(eligible, n, r) ==> IsFull(eligible, n, r))
            <==> forall selected :: Selection(eligible, n, selected) ==> SafeAfter(eligible, n, selected)
  {
    hide Selection, SampleOf, IsFull, SafeAfter, OneKeyEach;
    if forall r :: CanBe(eligible, n, r) ==> IsFull(eligible, n, r) {
      forall selected | Selection(eligible, n, selected)
        ensures SafeAfter(eligible, n, selected)
      {
        FullIsSafe(eligible, n, selected);
      }
    }
    if forall selected :: Selection(eligible, n, selected) ==> SafeAfter(eligible, n, selected) {
      forall r | CanBe(eligible, n, r)
        ensures IsFull(eligible, n, r)
      {
        var selected, groups :| SampleOf(eligible, n, selected, groups, r);
        SafeIsFull(eligible, n, selected, groups, r);
      }
    }
  }

  lemma SafeIsFull(eligible: seq<Candidate>, n: nat, selected: seq<Candidate>, groups: seq<Group>, r: seq<Candidate>)
    requires OneKeyEach(eligible) && SampleOf(eligible, n, selected, groups, r)
    requires Selection(eligible, n, selected) ==> SafeAfter(eligible, n, selected)
    ensures IsFull(eligible, n, r)
  {
    hide Selection, Filled, Missing, Shuffles, Safe, IsFull, OneKeyEach;
    SampleIsFullIff(eligible, n, selected, groups, r);
    PartOneKeyEach(eligible, selected);
    FillIsFullIff(Missing(eligible, selected), n - |selected|);
  }

  lemma FullIsSafe(eligible: seq<Candidate>, n: nat, selected: seq<Candidate>)
    requires OneKeyEach(eligible) && Selection(eligible, n, selected)
    requires forall r :: CanBe(eligible, n, r) ==> IsFull(eligible, n, r)
    ensures SafeAfter(eligible, n, selected)
  {
    hide Selection, Filled, Missing, Shuffles, Safe, IsFull, OneKeyEach;
    SelectionIs(eligible, n, selected);
    PartOneKeyEach(eligible, selected);
    var pool, places := Missing(eligible, selected), n - |selected|;
    forall groups | Shuffles(groups, Grouped(pool))
      ensures |Ids(Filled(groups, Turn(0, 0), places))| == Min(places, |Ids(pool)|)
    {
      var r := PutAll(selected, Picks(groups, n, |selected|));
      assert SampleOf(eligible, n, selected, groups, r);
      assert CanBe(eligible, n, r);
      SampleIsFullIff(eligible, n, selected, groups, r);
    }
    FillIsFullIff(pool, places);
  }

  /** The cases of a stratum that the sample holds. */
  ghost function CasesOf(eligible: seq<Candidate>, r: seq<Candidate>, st: Stratum): set<string> {
    Ids(Of(eligible, st)) * Ids(r)
  }

  lemma {:induction false} DrawIsKept(eligible: seq<Candidate>, n: nat, strata: seq<Stratum>, selected: seq<Candidate>,
                                      st: Stratum)
    returns (draw: seq<Candidate>)
    requires Draws(eligible, n, strata, selected) && st in strata
    ensures DrawOf(eligible, n, st, draw) && Ids(draw) <= Ids(selected)
    decreases |strata|
  {
    var front, last := strata[..|strata| - 1], strata[|strata| - 1];
    var before, drawn :|
      && Draws(eligible, n, front, before) && DrawOf(eligible, n, last, drawn) && selected == PutAll(before, drawn);
    IdsPutAll(before, drawn);
    hide Draws, DrawOf, PutAll, Ids;
    if st == last {
      draw := drawn;
    } else {
      assert st in front by {
        Rejoin(strata);
      }
      draw := DrawIsKept(eligible, n, front, before, st);
    }
  }

  /** The floors and the injection draw, in cases, for rows that may repeat them: where the floors fit, a
      stratum falls short of its quota by no more than its rows repeat cases. */
  lemma FloorsInCases(eligible: seq<Candidate>, n: nat, r: seq<Candidate>, st: Stratum)
    requires CanBe(eligible, n, r) && Floors(eligible, n, ALL_STRATA) <= n && st in ALL_STRATA
    ensures var rows := Of(eligible, st);
      Min(Quota(st, n), |rows|) - (|rows| - |Ids(rows)|) <= |CasesOf(eligible, r, st)|
  {
    hide Draws, Floors, Of, Quota, Ids, PutAll, Missing, Picks, Shuffles;
    var selected, groups :| SampleOf(eligible, n, selected, groups, r);
    var drawn :| Draws(eligible, n, ALL_STRATA, drawn) && ClampOf(drawn, n, selected);
    DrawsWithinFloors(eligible, n, ALL_STRATA, drawn);
    var draw := DrawIsKept(eligible, n, ALL_STRATA, drawn, st);
    DrawFacts(eligible, n, st, draw);
    RepeatsOfPart(draw, Of(eligible, st));
    PartFacts(draw, Of(eligible, st));
    IdsOfPart(draw, Of(eligible, st));
    IdsPutAll(selected, Picks(groups, n, |selected|));
    var kept := CasesOf(eligible, r, st);
    assert Ids(draw) <= kept;
    assert |kept| == |Ids(draw)| + |kept - Ids(draw)|;
  }

  lemma {:induction false} DrawsWithinFloors(eligible: seq<Candidate>, n: nat, strata: seq<Stratum>,
                                             selected: seq<Candidate>)
    requires Draws(eligible, n, strata, selected)
    ensures |selected| <= Floors(eligible, n, strata)
    decreases |strata|
  {
    if strata != [] {
      var front, last := strata[..|strata| - 1], strata[|strata| - 1];
      var before, drawn :|
        && Draws(eligible, n, front, before) && DrawOf(eligible, n, last, drawn) && selected == PutAll(before, drawn);
      DrawsWithinFloors(eligible, n, front, before);
      DrawFacts(eligible, n, last, drawn);
      PutAllSize(before, drawn);
      FloorsPush(eligible, n, front, last);
      Rejoin(strata);
      hide Draws, DrawOf, PutAll, Floors, Of, Quota, Min;
    }
  }

  // ---- Draws without a choice. ----

  /** The strata the draw takes whole. */
  function Whole(eligible: seq<Candidate>, n: nat, strata: seq<Stratum>): seq<Candidate> {
    if strata == [] then []
    else
      var last := strata[|strata| - 1];
      Whole(eligible, n, strata[..|strata| - 1])
      + if |Of(eligible, last)| <= Quota(last, n) then Of(eligible, last) else []
  }

  /** Every stratum is drawn whole or not at all, and the target holds what is drawn. */
  ghost predicate Forced(eligible: seq<Candidate>, n: nat) {
    && (forall st :: st in ALL_STRATA ==> |Of(eligible, st)| <= Quota(st, n) || Quota(st, n) == 0)
    && |Ids(Whole(eligible, n, ALL_STRATA))| <= n
  }

  lemma {:induction false} ForcedDraws(eligible: seq<Candidate>, n: nat, strata: seq<Stratum>, selected: seq<Candidate>)
    requires forall st :: st in strata ==> |Of(eligible, st)| <= Quota(st, n) || Quota(st, n) == 0
    requires Draws(eligible, n, strata, selected)
    ensures Ids(selected) == Ids(Whole(eligible, n, strata))
    decreases |strata|
  {
    if strata != [] {
      var front, st := strata[..|strata| - 1], strata[|strata| - 1];
      assert st in strata && forall x :: x in front ==> x in strata;
      var before, draw :|
        && Draws(eligible, n, front, before) && DrawOf(eligible, n, st, draw) && selected == PutAll(before, draw);
      var whole := if |Of(eligible, st)| <= Quota(st, n) then Of(eligible, st) else [];
      assert draw == whole;
      assert Whole(eligible, n, strata) == Whole(eligible, n, front) + whole;
      hide Draws, DrawOf, PutAll, Whole, Of, Ids, Quota;
      ForcedDraws(eligible, n, front, before);
      IdsPutAll(before, draw);
      IdsAppend(Whole(eligible, n, front), whole);
    }
  }

  lemma IdsAppend(a: seq<Candidate>, b: seq<Candidate>)
    ensures Ids(a + b) == Ids(a) + Ids(b)
  {
    forall id
      ensures id in Ids(a + b) <==> id in Ids(a) || id in Ids(b)
    {
      if id in Ids(a + b) {
        var x := RowOf(a + b, id);
        assert x in a || x in b;
      }
      if id in Ids(a) {
        var x := RowOf(a, id);
        assert x in a + b;
      }
      if id in Ids(b) {
        var x := RowOf(b, id);
        assert x in a + b;
      }
    }
  }

  lemma {:induction false} SomeDraws(eligible: seq<Candidate>, n: nat, strata: seq<Stratum>)
    returns (selected: seq<Candidate>)
    ensures Draws(eligible, n, strata, selected)
    decreases |strata|
  {
    if strata == [] {
      selected := [];
    } else {
      var front, st := strata[..|strata| - 1], strata[|strata| - 1];
      var before := SomeDraws(eligible, n, front);
      var members := Of(eligible, st);
      var draw := if |members| <= Quota(st, n) then members else members[..Quota(st, n)];
      assert multiset(draw) <= multiset(members) by {
        TakeDrop(members, |draw|);
      }
      hide Draws, Of;
      Rejoin(strata);
      DrawsPush(eligible, n, front, before, st, draw);
      selected := PutAll(before, draw);
    }
  }

  lemma {:induction false} SameMissing(eligible: seq<Candidate>, a: seq<Candidate>, b: seq<Candidate>)
    requires Ids(a) == Ids(b)
    ensures Missing(eligible, a) == Missing(eligible, b)
  {
    if eligible != [] {
      SameMissing(eligible[..|eligible| - 1], a, b);
      IdOfIds(a, eligible[|eligible| - 1].caseId);
      IdOfIds(b, eligible[|eligible| - 1].caseId);
      hide Ids, HasId;
    }
  }

  /** What is safe to fill once the strata that fit have been taken whole: read off the rows and the
      target alone. */
  ghost predicate SafeRows(eligible: seq<Candidate>, n: nat) {
    var whole := Whole(eligible, n, ALL_STRATA);
    |Ids(whole)| <= n && Safe(Missing(eligible, whole), n - |Ids(whole)|)
  }

  lemma ForcedSelection(eligible: seq<Candidate>, n: nat, selected: seq<Candidate>)
    requires Forced(eligible, n) && Selection(eligible, n, selected)
    ensures SafeAfter(eligible, n, selected) <==> SafeRows(eligible, n)
  {
    hide Safe, Whole, Draws, Ids, Missing, Distinct;
    SelectionIs(eligible, n, selected);
    var drawn :| Draws(eligible, n, ALL_STRATA, drawn) && ClampOf(drawn, n, selected);
    ForcedDraws(eligible, n, ALL_STRATA, drawn);
    DrawsAre(eligible, n, ALL_STRATA, drawn);
    IdsDistinct(drawn);
    SameMissing(eligible, drawn, Whole(eligible, n, ALL_STRATA));
  }

  /** Where no draw has a choice, every sample has its full size if and only if the rows themselves say so. */
  lemma ForcedFullSizeIff(eligible: seq<Candidate>, n: nat)
    requires OneKeyEach(eligible) && Forced(eligible, n)
    ensures (forall r :: CanBe(eligible, n, r) ==> IsFull(eligible, n, r)) <==> SafeRows(eligible, n)
  {
    hide OneKeyEach, CanBe, IsFull, Selection, SafeAfter, SafeRows;
    FullSizeIff(eligible, n);
    var selected := ForcedChoice(eligible, n);
    ForcedSelection(eligible, n, selected);
    forall other | Selection(eligible, n, other)
      ensures SafeAfter(eligible, n, other) <==> SafeRows(eligible, n)
    {
      ForcedSelection(eligible, n, other);
    }
  }

  lemma ForcedChoice(eligible: seq<Candidate>, n: nat) returns (selected: seq<Candidate>)
    requires Forced(eligible, n)
    ensures Selection(eligible, n, selected)
  {
    hide Whole, Draws, Ids, Distinct;
    selected := SomeDraws(eligible, n, ALL_STRATA);
    ForcedDraws(eligible, n, ALL_STRATA, selected);
    DrawsAre(eligible, n, ALL_STRATA, selected);
    IdsDistinct(selected);
    assert ClampOf(selected, n, selected);
  }
}
