/** The query operators the read side is written in: order by, distinct on, left join, group by. */
module Relational {
  import opened Seqs
  import opened Wrappers

  // ---- ORDER BY ----

  ghost predicate TotalOrder<T(!new)>(le: (T, T) -> bool) {
    && (forall a, b :: le(a, b) || le(b, a))
    && (forall a, b, c :: le(a, b) && le(b, c) ==> le(a, c))
  }

  ghost predicate IsSorted<T>(s: seq<T>, le: (T, T) -> bool) {
    forall i, j :: 0 <= i < j < |s| ==> le(s[i], s[j])
  }

  function Insert<T>(s: seq<T>, x: T, le: (T, T) -> bool): seq<T> {
    if s == [] then [x] else if le(x, s[0]) then [x] + s else [s[0]] + Insert(s[1..], x, le)
  }

  function OrderBy<T>(s: seq<T>, le: (T, T) -> bool): seq<T> {
    if s == [] then [] else Insert(OrderBy(s[1..], le), s[0], le)
  }

  lemma {:induction false} InsertKeepsRows<T(!new)>(s: seq<T>, x: T, le: (T, T) -> bool)
    ensures multiset(Insert(s, x, le)) == multiset(s) + multiset{x}
    ensures forall y :: y in Insert(s, x, le) <==> y == x || y in s
  {
    if s != [] && !le(x, s[0]) {
      InsertKeepsRows(s[1..], x, le);
      assert s == [s[0]] + s[1..];
    }
  }

  lemma {:induction false} InsertKeepsOrder<T(!new)>(s: seq<T>, x: T, le: (T, T) -> bool)
    requires TotalOrder(le) && IsSorted(s, le)
    ensures IsSorted(Insert(s, x, le), le)
  {
    if s != [] {
      if le(x, s[0]) {
        forall i | 0 <= i < |s|
          ensures le(x, s[i])
        {
          assert i > 0 ==> le(s[0], s[i]);
        }
      } else {
        InsertKeepsOrder(s[1..], x, le);
        InsertKeepsRows(s[1..], x, le);
        assert le(s[0], x);
        var rest := Insert(s[1..], x, le);
        hide Insert;
        forall i | 0 <= i < |rest|
          ensures le(s[0], rest[i])
        {
          assert rest[i] in rest;
          if rest[i] != x {
            var j :| 0 <= j < |s[1..]| && s[1..][j] == rest[i];
            assert s[j + 1] == rest[i];
          }
        }
        assert IsSorted([s[0]] + rest, le);
      }
    }
  }

  lemma {:induction false} OrderByFacts<T(!new)>(s: seq<T>, le: (T, T) -> bool)
    requires TotalOrder(le)
    ensures IsSorted(OrderBy(s, le), le) && multiset(OrderBy(s, le)) == multiset(s) && |OrderBy(s, le)| == |s|
    ensures forall y :: y in OrderBy(s, le) <==> y in s
  {
    if s != [] {
      var rest := OrderBy(s[1..], le);
      assert OrderBy(s, le) == Insert(rest, s[0], le);
      hide TotalOrder, IsSorted, Insert, OrderBy;
      OrderByFacts(s[1..], le);
      InsertKeepsOrder(rest, s[0], le);
      InsertKeepsRows(rest, s[0], le);
      assert s == [s[0]] + s[1..];
    }
    hide *;
    SameMembers(OrderBy(s, le), s);
  }

  lemma SameMembers<T(!new)>(a: seq<T>, b: seq<T>)
    requires multiset(a) == multiset(b)
    ensures |a| == |b| && forall y :: y in a <==> y in b
  {
    assert |multiset(a)| == |multiset(b)|;
    forall y
      ensures y in a <==> y in b
    {
      assert y in multiset(a) <==> y in multiset(b);
    }
  }

  // ---- WHERE ----

  function Where<T(!new)>(s: seq<T>, p: T -> bool): (r: seq<T>)
    ensures forall y :: y in r <==> y in s && p(y)
    ensures |r| <= |s|
  {
    if s == [] then []
    else
      assert s == s[..|s| - 1] + [s[|s| - 1]];
      Where(s[..|s| - 1], p) + if p(s[|s| - 1]) then [s[|s| - 1]] else []
  }

  lemma {:induction false} WhereMultiset<T(!new)>(s: seq<T>, p: T -> bool)
    ensures multiset(Where(s, p)) <= multiset(s)
    ensures forall y :: multiset(Where(s, p))[y] == if p(y) then multiset(s)[y] else 0
  {
    if s != [] {
      WhereMultiset(s[..|s| - 1], p);
      assert s == s[..|s| - 1] + [s[|s| - 1]];
    }
  }

  /** The first row that satisfies a condition. */
  function First<T>(s: seq<T>, p: T -> bool): (r: Option<T>)
    ensures r.Some? ==> r.value in s && p(r.value)
    ensures r.None? ==> forall y <- s :: !p(y)
  {
    if s == [] then None else if p(s[0]) then Some(s[0]) else First(s[1..], p)
  }

  lemma {:induction false} FirstIsLeast<T>(s: seq<T>, p: T -> bool, le: (T, T) -> bool)
    requires IsSorted(s, le) && First(s, p).Some?
    ensures forall y <- s :: p(y) ==> y == First(s, p).value || le(First(s, p).value, y)
  {
    if p(s[0]) {
      forall y <- s | p(y)
        ensures y == s[0] || le(s[0], y)
      {
        var i :| 0 <= i < |s| && s[i] == y;
      }
    } else {
      FirstIsLeast(s[1..], p, le);
      assert s == [s[0]] + s[1..];
    }
  }

  // ---- DISTINCT ON ----

  /** The first row of each run of equal keys. */
  function DistinctOn<T, K(==)>(s: seq<T>, key: T -> K): seq<T> {
    if s == [] then []
    else
      var n := |s| - 1;
      DistinctOn(s[..n], key) + if n > 0 && key(s[n - 1]) == key(s[n]) then [] else [s[n]]
  }

  /** Rows of one key stand together. */
  ghost predicate Clustered<T, K>(s: seq<T>, key: T -> K) {
    forall i, j, k :: 0 <= i < j < k < |s| && key(s[i]) == key(s[k]) ==> key(s[j]) == key(s[k])
  }

  ghost predicate LeastOfKey<T(!new), K>(x: T, s: seq<T>, key: T -> K, le: (T, T) -> bool) {
    x in s && forall y :: y in s && key(y) == key(x) ==> y == x || le(x, y)
  }

  ghost predicate HasKey<T, K>(r: seq<T>, k: K, key: T -> K) {
    exists i :: 0 <= i < |r| && key(r[i]) == k
  }

  /** One row for every key, and it is the key's least. */
  ghost predicate Representatives<T(!new), K>(r: seq<T>, s: seq<T>, key: T -> K, le: (T, T) -> bool) {
    && (forall i, j :: 0 <= i < j < |r| ==> key(r[i]) != key(r[j]))
    && (forall i :: 0 <= i < |r| ==> LeastOfKey(r[i], s, key, le))
    && (forall y :: y in s ==> HasKey(r, key(y), key))
  }

  /** A later row of a key already represented changes nothing. */
  lemma SameKey<T(!new), K>(r: seq<T>, front: seq<T>, last: T, key: T -> K, le: (T, T) -> bool)
    requires Representatives(r, front, key, le) && IsSorted(front + [last], le)
    requires exists y :: y in front && key(y) == key(last)
    ensures Representatives(r, front + [last], key, le)
  {
    var s := front + [last];
    assert forall y :: y in s <==> y in front || y == last;
    forall i | 0 <= i < |r|
      ensures LeastOfKey(r[i], s, key, le)
    {
      assert LeastOfKey(r[i], front, key, le);
      var j :| 0 <= j < |front| && front[j] == r[i];
      assert s[j] == r[i] && s[|front|] == last;
    }
    hide LeastOfKey, HasKey, IsSorted;
  }

  lemma FreshKey<T(!new), K>(r: seq<T>, front: seq<T>, last: T, key: T -> K, le: (T, T) -> bool)
    requires Representatives(r, front, key, le) && forall y :: y in front ==> key(y) != key(last)
    ensures Representatives(r + [last], front + [last], key, le)
  {
    var r', s := r + [last], front + [last];
    assert forall y :: y in s <==> y in front || y == last;
    assert LeastOfKey(last, s, key, le);
    forall i | 0 <= i < |r'|
      ensures LeastOfKey(r'[i], s, key, le)
    {
      assert i < |r| ==> LeastOfKey(r[i], front, key, le);
    }
    forall i, j | 0 <= i < j < |r'|
      ensures key(r'[i]) != key(r'[j])
    {
      assert LeastOfKey(r[i], front, key, le);
    }
    assert HasKey(r', key(last), key) by { assert r'[|r|] == last; }
    forall y | y in s
      ensures HasKey(r', key(y), key)
    {
      if y in front {
        assert HasKey(r, key(y), key);
        var i :| 0 <= i < |r| && key(r[i]) == key(y);
        assert r'[i] == r[i];
      }
    }
    hide LeastOfKey, HasKey;
  }

  lemma {:induction false} DistinctOnFacts<T(!new), K>(s: seq<T>, key: T -> K, le: (T, T) -> bool)
    requires IsSorted(s, le) && Clustered(s, key)
    ensures Representatives(DistinctOn(s, key), s, key, le)
  {
    if s != [] {
      var n := |s| - 1;
      var front, last := s[..n], s[n];
      DistinctOnFacts(front, key, le);
      assert s == front + [last];
      if n > 0 && key(s[n - 1]) == key(last) {
        assert s[n - 1] in front;
        SameKey(DistinctOn(front, key), front, last, key, le);
        Empty(DistinctOn(front, key));
      } else {
        NewKey(s, key);
        FreshKey(DistinctOn(front, key), front, last, key, le);
      }
    }
  }

  lemma NewKey<T, K>(s: seq<T>, key: T -> K)
    requires Clustered(s, key) && s != [] && (|s| > 1 ==> key(s[|s| - 2]) != key(s[|s| - 1]))
    ensures forall y <- s[..|s| - 1] :: key(y) != key(s[|s| - 1])
  {
    forall y <- s[..|s| - 1]
      ensures key(y) != key(s[|s| - 1])
    {
      var i :| 0 <= i < |s| - 1 && s[i] == y;
      assert s[i] == y && (i < |s| - 2 ==> key(s[i]) != key(s[|s| - 1]));
    }
  }

  // ---- LEFT JOIN ----

  function Pair<A, B>(a: A, matches: seq<B>): (r: seq<(A, Option<B>)>)
    ensures |r| == if matches == [] then 1 else |matches|
  {
    if matches == [] then [(a, None)] else seq(|matches|, i requires 0 <= i < |matches| => (a, Some(matches[i])))
  }

  function Matching<A, B>(on: (A, B) -> bool, a: A): B -> bool { b => on(a, b) }

  /** Every row of the left with every match on the right, or once with none. */
  function LeftJoin<A, B(!new)>(left: seq<A>, right: seq<B>, on: (A, B) -> bool): seq<(A, Option<B>)> {
    if left == [] then []
    else
      var last := left[|left| - 1];
      LeftJoin(left[..|left| - 1], right, on) + Pair(last, Where(right, Matching(on, last)))
  }

  ghost predicate AtMostOne<A(!new), B>(right: seq<B>, on: (A, B) -> bool) {
    forall a, i, j :: 0 <= i < j < |right| && on(a, right[i]) ==> !on(a, right[j])
  }

  lemma {:induction false} WhereAtMostOne<B(!new)>(s: seq<B>, p: B -> bool)
    requires forall i, j :: 0 <= i < j < |s| && p(s[i]) ==> !p(s[j])
    ensures Where(s, p) == match First(s, p) case Some(b) => [b] case None => []
  {
    if s != [] {
      var front, last := s[..|s| - 1], s[|s| - 1];
      WhereAtMostOne(front, p);
      FirstPush(front, last, p);
      assert s == front + [last];
      if p(last) {
        forall y <- front
          ensures !p(y)
        {
          var i :| 0 <= i < |front| && front[i] == y;
          assert s[i] == y;
        }
      }
    }
  }

  lemma {:induction false} FirstPush<B>(s: seq<B>, x: B, p: B -> bool)
    ensures First(s + [x], p) == if First(s, p).Some? then First(s, p) else if p(x) then Some(x) else None
  {
    if s != [] {
      assert (s + [x])[1..] == s[1..] + [x];
      FirstPush(s[1..], x, p);
    }
  }

  lemma JoinsOnce<A, B(!new)>(a: A, right: seq<B>, p: B -> bool)
    requires forall i, j :: 0 <= i < j < |right| && p(right[i]) ==> !p(right[j])
    ensures Pair(a, Where(right, p)) == [(a, First(right, p))]
  {
    WhereAtMostOne(right, p);
    assert Pair(a, Where(right, p))[0] == (a, First(right, p));
  }

  /** A join on a key that is unique on the right neither drops nor multiplies a row. */
  lemma {:induction false} JoinConserves<A(!new), B(!new)>(left: seq<A>, right: seq<B>, on: (A, B) -> bool)
    requires AtMostOne(right, on)
    ensures |LeftJoin(left, right, on)| == |left|
  {
    if left == [] {
      assert LeftJoin(left, right, on) == [];
    } else {
      hide *;
      JoinConserves(left[..|left| - 1], right, on);
      MatchesOnce(left[|left| - 1], right, on);
      JoinStep(left, right, on);
    }
  }

  /** Each row of the left comes with the one row it matches, if any. */
  lemma {:induction false} JoinAt<A(!new), B(!new)>(left: seq<A>, right: seq<B>, on: (A, B) -> bool, i: nat)
    requires AtMostOne(right, on) && i < |left|
    ensures |LeftJoin(left, right, on)| == |left|
    ensures LeftJoin(left, right, on)[i] == (left[i], First(right, Matching(on, left[i])))
  {
    hide *;
    var front, last := left[..|left| - 1], left[|left| - 1];
    JoinConserves(left, right, on);
    JoinConserves(front, right, on);
    MatchesOnce(last, right, on);
    JoinStep(left, right, on);
    if i < |front| {
      JoinAt(front, right, on, i);
      assert front[i] == left[i];
    }
  }

  lemma JoinStep<A(!new), B(!new)>(left: seq<A>, right: seq<B>, on: (A, B) -> bool)
    requires left != []
    ensures var last := left[|left| - 1];
      LeftJoin(left, right, on)
        == LeftJoin(left[..|left| - 1], right, on) + Pair(last, Where(right, Matching(on, last)))
  {}

  lemma MatchesOnce<A(!new), B(!new)>(a: A, right: seq<B>, on: (A, B) -> bool)
    requires AtMostOne(right, on)
    ensures Pair(a, Where(right, Matching(on, a))) == [(a, First(right, Matching(on, a)))]
  {
    assert forall i, j :: 0 <= i < j < |right| && on(a, right[i]) ==> !on(a, right[j]);
    JoinsOnce(a, right, Matching(on, a));
  }

  // ---- Unique keys. ----

  ghost predicate DistinctKeys<T, K>(s: seq<T>, key: T -> K) {
    forall i, j :: 0 <= i < j < |s| ==> key(s[i]) != key(s[j])
  }

  lemma {:induction false} KeyOnce<T, K>(s: seq<T>, key: T -> K, x: T)
    requires DistinctKeys(s, key)
    ensures multiset(s)[x] <= 1
  {
    if s != [] {
      var front, last := s[..|s| - 1], s[|s| - 1];
      KeyOnce(front, key, x);
      assert s == front + [last];
      forall y | y in front
        ensures y != last
      {
        var i :| 0 <= i < |front| && front[i] == y;
        assert key(s[i]) != key(s[|front|]);
      }
    }
  }

  /** Keys that are unique stay so in any part of the rows, in any order. */
  lemma KeysStayDistinct<T, K>(s: seq<T>, part: seq<T>, key: T -> K)
    requires DistinctKeys(s, key) && multiset(part) <= multiset(s)
    ensures DistinctKeys(part, key)
  {
    forall i, j | 0 <= i < j < |part|
      ensures key(part[i]) != key(part[j])
    {
      assert part[i] in multiset(part) && part[j] in multiset(part);
      KeyOnce(s, key, part[i]);
      if part[i] == part[j] {
        Twice(part, i, j);
      }
    }
  }

  // ---- GROUP BY ----

  function Get<K>(m: map<K, int>, k: K): int {
    if k in m then m[k] else 0
  }

  /** The same counts, whether or not a key with none is listed. */
  ghost predicate SameCounts<K(!new)>(a: map<K, int>, b: map<K, int>) {
    forall k :: Get(a, k) == Get(b, k)
  }

  function GroupSum<T, K(==)>(s: seq<T>, key: T -> K, weight: T -> int): map<K, int> {
    if s == [] then map[]
    else
      var front, last := GroupSum(s[..|s| - 1], key, weight), s[|s| - 1];
      front[key(last) := Get(front, key(last)) + weight(last)]
  }

  function Weigh<T>(s: seq<T>, weight: T -> int): int {
    if s == [] then 0 else Weigh(s[..|s| - 1], weight) + weight(s[|s| - 1])
  }

  ghost function Sum<K(!new)>(m: map<K, int>): int
    decreases |m|
  {
    if m == map[] then 0
    else
      var k :| k in m;
      Shrinks(m, k);
      m[k] + Sum(m - {k})
  }

  lemma Shrinks<K>(m: map<K, int>, k: K)
    requires k in m
    ensures |m - {k}| == |m| - 1
  {
    assert (m - {k}).Keys == m.Keys - {k};
  }

  lemma {:induction false} SumWithout<K(!new)>(m: map<K, int>, k: K)
    requires k in m
    ensures Sum(m) == m[k] + Sum(m - {k})
    decreases |m|
  {
    var first :| first in m && Sum(m) == m[first] + Sum(m - {first});
    Shrinks(m, first);
    if first != k {
      SumWithout(m - {first}, k);
      Shrinks(m, k);
      SumWithout(m - {k}, first);
      assert (m - {first}) - {k} == (m - {k}) - {first};
    }
  }

  lemma SumPut<K(!new)>(m: map<K, int>, k: K, v: int)
    ensures Sum(m[k := v]) == Sum(m) - Get(m, k) + v
  {
    SumWithout(m[k := v], k);
    if k in m {
      SumWithout(m, k);
      assert m[k := v] - {k} == m - {k};
    } else {
      assert m[k := v] - {k} == m;
    }
  }

  lemma SumDrop<K(!new)>(m: map<K, int>, k: K)
    ensures Sum(m) == Get(m, k) + Sum(m - {k}) && |m - {k}| == |m| - if k in m then 1 else 0
    ensures forall j :: Get(m - {k}, j) == if j == k then 0 else Get(m, j)
  {
    if k in m {
      SumWithout(m, k);
      Shrinks(m, k);
    } else {
      assert m - {k} == m;
    }
  }

  /** Zero entries do not count. */
  lemma {:induction false} SumByGet<K(!new)>(a: map<K, int>, b: map<K, int>)
    requires SameCounts(a, b)
    ensures Sum(a) == Sum(b)
    decreases |a| + |b|
  {
    if a == map[] && b == map[] {
    } else {
      var k :| k in a || k in b;
      SumDrop(a, k);
      SumDrop(b, k);
      hide Sum, Get;
      SumByGet(a - {k}, b - {k});
    }
  }

  /** The groups add up to the whole. */
  lemma {:induction false} GroupsAddUp<T, K(!new)>(s: seq<T>, key: T -> K, weight: T -> int)
    ensures Sum(GroupSum(s, key, weight)) == Weigh(s, weight)
  {
    if s != [] {
      GroupsAddUp(s[..|s| - 1], key, weight);
      var front, last := GroupSum(s[..|s| - 1], key, weight), s[|s| - 1];
      SumPut(front, key(last), Get(front, key(last)) + weight(last));
    }
  }

  function Keyed<T, K(==)>(key: T -> K, k: K): T -> bool { x => key(x) == k }

  /** And each group is the rows of its key. */
  lemma {:induction false} GroupIsItsRows<T(!new), K>(s: seq<T>, key: T -> K, weight: T -> int, k: K)
    ensures Get(GroupSum(s, key, weight), k) == Weigh(Where(s, Keyed(key, k)), weight)
    ensures k in GroupSum(s, key, weight) <==> exists y :: y in s && key(y) == k
  {
    GroupHasKey(s, key, weight, k);
    if s != [] {
      var front, last := s[..|s| - 1], s[|s| - 1];
      var rows := Where(front, Keyed(key, k));
      assert Where(s, Keyed(key, k)) == rows + if key(last) == k then [last] else [];
      GroupPush(s, key, weight, k);
      hide Where, GroupSum, Get;
      GroupIsItsRows(front, key, weight, k);
      Empty(rows);
      WeighPush(rows, last, weight);
      hide Weigh;
    }
  }

  lemma GroupPush<T, K>(s: seq<T>, key: T -> K, weight: T -> int, k: K)
    requires s != []
    ensures Get(GroupSum(s, key, weight), k)
         == Get(GroupSum(s[..|s| - 1], key, weight), k) + if key(s[|s| - 1]) == k then weight(s[|s| - 1]) else 0
  {}

  lemma {:induction false} GroupHasKey<T(!new), K>(s: seq<T>, key: T -> K, weight: T -> int, k: K)
    ensures k in GroupSum(s, key, weight) <==> exists y :: y in s && key(y) == k
  {
    if s != [] {
      var front, last := s[..|s| - 1], s[|s| - 1];
      GroupHasKey(front, key, weight, k);
      Rejoin(s);
    }
  }

  lemma WeighPush<T>(s: seq<T>, x: T, weight: T -> int)
    ensures Weigh(s + [x], weight) == Weigh(s, weight) + weight(x)
  {
    Halves(s, [x]);
  }

  lemma {:induction false} WeighOnes<T>(s: seq<T>, weight: T -> int)
    requires forall x :: x in s ==> weight(x) == 1
    ensures Weigh(s, weight) == |s|
  {
    if s != [] {
      assert s[|s| - 1] in s;
      forall x | x in s[..|s| - 1]
        ensures weight(x) == 1
      {
        assert x in s;
      }
      WeighOnes(s[..|s| - 1], weight);
    }
  }
}
