/** What each group gives to the round robin, as a function of the sizes of the groups and the number
    of places alone: whatever the shuffle, a group's next candidate is taken exactly when the candidates
    ahead of it leave a place. */
module Shares {
  import opened RoundRobin
  import opened Sampler
  import opened Seqs

  // ---- Fairness. ----

  /** A group with `x` is behind one with `y`: two behind, or one behind a later group. */
  predicate Behind(a: Key, x: nat, b: Key, y: nat) {
    x + 1 < y || (Less(a, b) && x < y)
  }

  /** Only a group with nothing left falls behind another. */
  ghost predicate FairTo(picks: seq<Candidate>, pool: seq<Candidate>) {
    forall a, b :: Behind(a, CountKey(picks, a), b, CountKey(picks, b)) ==> CountKey(picks, a) == CountKey(pool, a)
  }

  /** A fair part of the pool, as large as there are places. */
  ghost predicate FillOf(picks: seq<Candidate>, pool: seq<Candidate>, places: nat) {
    multiset(picks) <= multiset(pool) && |picks| == Min(places, |pool|) && FairTo(picks, pool)
  }

  lemma {:induction false} CountNone(s: seq<Candidate>, k: Key)
    ensures CountKey(s, k) == 0 <==> forall i :: 0 <= i < |s| ==> s[i].key != k
  {
    if s != [] {
      CountNone(s[..|s| - 1], k);
    }
  }

  /** What a key gave: all its group had, or one a visit. */
  lemma GroupShare(groups: seq<Group>, rest: seq<Group>, picks: seq<Candidate>, turn: Turn, k: Key)
    returns (g: nat)
    requires Sorted(groups) && AllAtHome(groups) && FairShares(groups, rest, picks, turn)
    requires multiset(picks) <= multiset(Flat(groups))
    ensures g < |groups| ==>
              groups[g].key == k && CountKey(picks, k) == Min(turn.Visits(g), CountKey(Flat(groups), k))
    ensures g >= |groups| ==> CountKey(picks, k) == CountKey(Flat(groups), k) == 0
  {
    CountFlat(groups, k);
    if i: nat :| i < |groups| && groups[i].key == k {
      g := i;
      assert Share(groups[g], rest[g], CountKey(picks, groups[g].key), turn.Visits(g));
    } else {
      g := |groups|;
      CountNone(picks, k);
      CountNone(Flat(groups), k);
      forall i | 0 <= i < |picks|
        ensures picks[i].key != k
      {
        assert picks[i] in multiset(picks);
        assert picks[i] in Flat(groups);
      }
    }
  }

  lemma FillIsFair(groups: seq<Group>, rest: seq<Group>, picks: seq<Candidate>, turn: Turn, pool: seq<Candidate>)
    requires Sorted(groups) && AllAtHome(groups) && FairShares(groups, rest, picks, turn)
    requires multiset(picks) <= multiset(Flat(groups)) && multiset(Flat(groups)) == multiset(pool)
    ensures FairTo(picks, pool)
  {
    forall a, b | Behind(a, CountKey(picks, a), b, CountKey(picks, b))
      ensures CountKey(picks, a) == CountKey(pool, a)
    {
      CountPermuted(Flat(groups), pool, a);
      var i := GroupShare(groups, rest, picks, turn, a);
      var j := GroupShare(groups, rest, picks, turn, b);
      hide CountKey, FairShares, AllAtHome, Flat;
      if i < |groups| && j < |groups| {
        InKeyOrder(groups, i, j);
      }
    }
  }

  lemma InKeyOrder(groups: seq<Group>, i: nat, j: nat)
    requires Sorted(groups) && i < |groups| && j < |groups|
    ensures Less(groups[i].key, groups[j].key) <==> i < j
  {
    assert i < j ==> Less(groups[i].key, groups[j].key);
    assert j < i ==> Less(groups[j].key, groups[i].key);
  }

  /** Whatever the shuffle, the fill is a fair part of the pool. */
  lemma FilledIsFair(groups: seq<Group>, pool: seq<Candidate>, places: nat) returns (rest: seq<Group>)
    requires Shuffles(groups, Grouped(pool))
    ensures FillOf(Filled(groups, Turn(0, 0), places), pool, places)
    ensures var picks := Filled(groups, Turn(0, 0), places);
      && |rest| == |groups| && Sorted(groups) && AllAtHome(groups) && Sorted(rest) && AllAtHome(rest)
      && multiset(picks) + multiset(Flat(rest)) == multiset(Flat(groups)) == multiset(pool)
      && forall g :: 0 <= g < |groups| ==>
           && rest[g].key == groups[g].key && rest[g].members <= groups[g].members
           && |rest[g].members| == |groups[g].members| - CountKey(picks, groups[g].key)
  {
    GroupedFacts(pool);
    ShufflesKeep(groups, Grouped(pool));
    var picks := Filled(groups, Turn(0, 0), places);
    assert |multiset(Flat(groups))| == |multiset(pool)|;
    if groups == [] {
      assert Flat(groups) == [] && pool == [];
      FilledStops(groups, Turn(0, 0), places);
      NoFill(places);
      rest := [];
    } else {
      hide Filled, Flat, Grouped, CountKey;
      SharingStarts([], groups);
      var end;
      rest, end := FilledShares(groups, groups, [], Turn(0, 0), places);
      Empty(picks);
      SharingEnds(groups, rest, picks, end);
      FillIsFair(groups, rest, picks, end, pool);
      SharedSizes(groups, rest, picks, end);
    }
  }

  lemma NoFill(places: nat)
    ensures FillOf([], [], places)
  {}

  lemma SharedSizes(start: seq<Group>, rest: seq<Group>, picks: seq<Candidate>, turn: Turn)
    requires Sharing(start, rest, picks, turn)
    ensures |rest| == |start| && Sorted(rest) && AllAtHome(rest)
    ensures multiset(picks) + multiset(Flat(rest)) == multiset(Flat(start))
    ensures forall g :: 0 <= g < |start| ==>
              && rest[g].key == start[g].key && rest[g].members <= start[g].members
              && |rest[g].members| == |start[g].members| - CountKey(picks, start[g].key)
  {
    forall g | 0 <= g < |start|
      ensures && rest[g].key == start[g].key && rest[g].members <= start[g].members
              && |rest[g].members| == |start[g].members| - CountKey(picks, start[g].key)
    {
      assert Share(start[g], rest[g], CountKey(picks, start[g].key), turn.Visits(g));
    }
  }

  // ---- Who is ahead. ----

  /** How many a group gives before another gives its candidate number `j`, if it has them. */
  function Reach(key: Key, k: Key, j: nat): nat { if Less(key, k) then j + 1 else j }

  /** The candidates taken before group `k` gives its candidate number `j`, counting from 0. */
  function Ahead(pool: seq<Candidate>, k: Key, j: nat): seq<Candidate> {
    if pool == [] then []
    else
      var front, last := pool[..|pool| - 1], pool[|pool| - 1];
      Ahead(front, k, j) + if CountKey(front, last.key) < Reach(last.key, k, j) then [last] else []
  }

  lemma {:induction false} AheadCount(pool: seq<Candidate>, k: Key, j: nat, key: Key)
    ensures CountKey(Ahead(pool, k, j), key) == Min(CountKey(pool, key), Reach(key, k, j))
  {
    if pool != [] {
      var front, last := pool[..|pool| - 1], pool[|pool| - 1];
      AheadCount(front, k, j, key);
      Rejoin(pool);
      CountPush(front, last, key);
      CountPush(Ahead(front, k, j), last, key);
      hide CountKey;
      Empty(Ahead(front, k, j));
    }
  }

  lemma CountPart(part: seq<Candidate>, all: seq<Candidate>, k: Key)
    requires multiset(part) <= multiset(all)
    ensures CountKey(part, k) <= CountKey(all, k)
  {
    var more := Listed(multiset(all) - multiset(part));
    assert multiset(part + more) == multiset(all);
    CountPermuted(part + more, all, k);
    CountAppend(part, more, k);
  }

  /** A list with at least as many of every key is at least as long, and longer with more of one. */
  lemma {:induction false} LongerByCounts(a: seq<Candidate>, b: seq<Candidate>, k: Key)
    requires forall key :: CountKey(a, key) <= CountKey(b, key)
    ensures |a| <= |b| && (CountKey(a, k) < CountKey(b, k) ==> |a| < |b|)
    decreases |a|
  {
    if a == [] {
      assert CountKey(b, k) > 0 ==> b != [];
    } else {
      var front, last := a[..|a| - 1], a[|a| - 1];
      Rejoin(a);
      CountPush(front, last, last.key);
      assert CountKey(b, last.key) > 0;
      CountNone(b, last.key);
      var i :| 0 <= i < |b| && b[i].key == last.key;
      var less := b[..i] + b[i + 1..];
      forall key
        ensures CountKey(front, key) <= CountKey(less, key)
        ensures CountKey(a, key) == CountKey(front, key) + if last.key == key then 1 else 0
        ensures CountKey(b, key) == CountKey(less, key) + if last.key == key then 1 else 0
      {
        CountPush(front, last, key);
        CountTaken(b, i, key);
        assert CountKey(a, key) <= CountKey(b, key);
      }
      hide CountKey;
      LongerByCounts(front, less, k);
    }
  }

  lemma CountTaken(s: seq<Candidate>, i: nat, key: Key)
    requires i < |s|
    ensures CountKey(s, key) == CountKey(s[..i] + s[i + 1..], key) + if s[i].key == key then 1 else 0
  {
    assert s == (s[..i] + [s[i]]) + s[i + 1..];
    CountAppend(s[..i] + [s[i]], s[i + 1..], key);
    CountPush(s[..i], s[i], key);
    CountAppend(s[..i], s[i + 1..], key);
  }

  lemma KeysAreOrdered(a: Key, b: Key)
    ensures a == b || Less(a, b) || Less(b, a)
    ensures !(Less(a, b) && Less(b, a)) && !Less(a, a)
  {}

  /** A group gives its candidate number `j` if and only if it has one and those ahead of it leave a
      place. So what every group gives is the same for every shuffle. */
  lemma GivenIff(picks: seq<Candidate>, pool: seq<Candidate>, places: nat, k: Key, j: nat)
    requires FillOf(picks, pool, places)
    ensures j < CountKey(picks, k) <==> j < CountKey(pool, k) && |Ahead(pool, k, j)| < places
  {
    CountPart(picks, pool, k);
    MinIs(places, |pool|);
    if j < CountKey(picks, k) {
      AllAheadGiven(picks, pool, k, j);
    } else if j < CountKey(pool, k) {
      OnlyAheadGiven(picks, pool, k, j);
      if |picks| == |pool| {
        AllGiven(picks, pool, k);
      }
    }
  }

  lemma AllGiven(picks: seq<Candidate>, pool: seq<Candidate>, k: Key)
    requires multiset(picks) <= multiset(pool) && |picks| == |pool|
    ensures multiset(picks) == multiset(pool) && CountKey(picks, k) == CountKey(pool, k)
  {
    var more := Listed(multiset(pool) - multiset(picks));
    assert multiset(picks + more) == multiset(pool);
    assert |multiset(picks + more)| == |multiset(pool)|;
    assert picks + more == picks;
    CountPermuted(picks, pool, k);
  }

  lemma AllAheadGiven(picks: seq<Candidate>, pool: seq<Candidate>, k: Key, j: nat)
    requires multiset(picks) <= multiset(pool) && FairTo(picks, pool) && j < CountKey(picks, k)
    ensures |Ahead(pool, k, j)| < |picks|
  {
    forall key
      ensures CountKey(Ahead(pool, k, j), key) <= CountKey(picks, key)
    {
      AheadCount(pool, k, j, key);
      assert Behind(key, CountKey(picks, key), k, CountKey(picks, k)) ==> CountKey(picks, key) == CountKey(pool, key);
    }
    AheadCount(pool, k, j, k);
    KeysAreOrdered(k, k);
    LongerByCounts(Ahead(pool, k, j), picks, k);
  }

  lemma OnlyAheadGiven(picks: seq<Candidate>, pool: seq<Candidate>, k: Key, j: nat)
    requires multiset(picks) <= multiset(pool) && FairTo(picks, pool)
    requires CountKey(picks, k) <= j < CountKey(pool, k)
    ensures |picks| <= |Ahead(pool, k, j)|
  {
    forall key
      ensures CountKey(picks, key) <= CountKey(Ahead(pool, k, j), key)
    {
      AheadCount(pool, k, j, key);
      CountPart(picks, pool, key);
      KeysAreOrdered(key, k);
      assert !Behind(k, CountKey(picks, k), key, CountKey(picks, key));
    }
    LongerByCounts(picks, Ahead(pool, k, j), k);
  }
}
