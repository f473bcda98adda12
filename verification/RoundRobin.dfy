/** The remainder of the sample: the leftover candidates grouped by sensor and day, and taken one group
    after the other, so that no busy group dominates. `Shares` says what each group gives, and `Sampling`
    builds the whole sample on it. */
module RoundRobin {
  import opened Sampler
  import opened Seqs

  // ---- Counting by group. ----

  function CountKey(s: seq<Candidate>, k: Key): nat {
    if s == [] then 0 else CountKey(s[..|s| - 1], k) + if s[|s| - 1].key == k then 1 else 0
  }

  lemma CountPush(s: seq<Candidate>, c: Candidate, k: Key)
    ensures CountKey(s + [c], k) == CountKey(s, k) + if c.key == k then 1 else 0
  {
    Halves(s, [c]);
  }

  lemma {:induction false} CountAppend(a: seq<Candidate>, b: seq<Candidate>, k: Key)
    ensures CountKey(a + b, k) == CountKey(a, k) + CountKey(b, k)
  {
    if b == [] {
      Empty(a);
    } else {
      var front, last := b[..|b| - 1], b[|b| - 1];
      CountAppend(a, front, k);
      assert (a + b)[..|a + b| - 1] == a + front;
    }
  }

  /** Counts do not depend on order. */
  lemma {:induction false} CountPermuted(a: seq<Candidate>, b: seq<Candidate>, k: Key)
    requires multiset(a) == multiset(b)
    ensures CountKey(a, k) == CountKey(b, k)
    decreases |a|
  {
    if a == [] {
      assert |multiset(b)| == 0;
    } else {
      var front, last := a[..|a| - 1], a[|a| - 1];
      assert a == front + [last];
      assert last in multiset(b);
      var i := Extract(b, last);
      assert multiset(front) == multiset(a) - multiset{last};
      CountPermuted(front, b[..i] + b[i + 1..], k);
      hide CountKey;
      CountAppend(b[..i], b[i + 1..], k);
      CountAppend(b[..i] + [last], b[i + 1..], k);
      CountPush(b[..i], last, k);
      CountPush(front, last, k);
    }
  }

  lemma Extract(b: seq<Candidate>, x: Candidate) returns (i: nat)
    requires x in b
    ensures i < |b| && b == b[..i] + [x] + b[i + 1..]
    ensures multiset(b[..i] + b[i + 1..]) == multiset(b) - multiset{x}
  {
    i :| 0 <= i < |b| && b[i] == x;
    assert b == b[..i] + [x] + b[i + 1..];
  }

  lemma {:induction false} CountAll(s: seq<Candidate>, home: Key, k: Key)
    requires forall i :: 0 <= i < |s| ==> s[i].key == home
    ensures CountKey(s, k) == if k == home then |s| else 0
  {
    if s != [] {
      CountAll(s[..|s| - 1], home, k);
    }
  }

  // ---- Groups, in key order. ----

  predicate Less(a: Key, b: Key) {
    a.sensor < b.sensor || (a.sensor == b.sensor && a.day < b.day)
  }

  datatype Group = Group(key: Key, members: seq<Candidate>)

  ghost predicate Sorted(groups: seq<Group>) {
    forall i, j :: 0 <= i < j < |groups| ==> Less(groups[i].key, groups[j].key)
  }

  ghost predicate AtHome(g: Group) {
    forall i :: 0 <= i < |g.members| ==> g.members[i].key == g.key
  }

  ghost predicate AllAtHome(groups: seq<Group>) {
    forall i :: 0 <= i < |groups| ==> AtHome(groups[i])
  }

  function Flat(groups: seq<Group>): seq<Candidate> {
    if groups == [] then [] else Flat(groups[..|groups| - 1]) + groups[|groups| - 1].members
  }

  /** File a candidate under its key, opening the group in its sorted place if need be. */
  function File(groups: seq<Group>, c: Candidate): seq<Group> {
    if groups == [] then [Group(c.key, [c])]
    else
      var last := groups[|groups| - 1];
      if last.key == c.key then groups[..|groups| - 1] + [Group(c.key, last.members + [c])]
      else if Less(last.key, c.key) then groups + [Group(c.key, [c])]
      else File(groups[..|groups| - 1], c) + [last]
  }

  lemma FlatPush(groups: seq<Group>, g: Group)
    ensures Flat(groups + [g]) == Flat(groups) + g.members
  {
    Halves(groups, [g]);
  }

  lemma {:induction false} FileCounts(groups: seq<Group>, c: Candidate)
    ensures multiset(Flat(File(groups, c))) == multiset(Flat(groups)) + multiset{c}
  {
    if groups == [] {
      assert File(groups, c) == [] + [Group(c.key, [c])];
      FlatPush([], Group(c.key, [c]));
    } else {
      var front, last := groups[..|groups| - 1], groups[|groups| - 1];
      if last.key == c.key {
        FlatPush(front, Group(c.key, last.members + [c]));
      } else if Less(last.key, c.key) {
        FlatPush(groups, Group(c.key, [c]));
      } else {
        FileCounts(front, c);
        FlatPush(File(front, c), last);
      }
    }
  }

  lemma {:induction false} FileKeeps(groups: seq<Group>, c: Candidate)
    requires Sorted(groups) && AllAtHome(groups)
    ensures Sorted(File(groups, c)) && AllAtHome(File(groups, c)) && File(groups, c) != []
    ensures forall i :: 0 <= i < |File(groups, c)| ==>
              File(groups, c)[i].key == c.key
                || exists j :: 0 <= j < |groups| && groups[j].key == File(groups, c)[i].key
  {
    if groups != [] {
      var front, last := groups[..|groups| - 1], groups[|groups| - 1];
      assert AtHome(last);
      if last.key != c.key && !Less(last.key, c.key) {
        FileKeeps(front, c);
        var filed := File(front, c);
        forall i | 0 <= i < |filed|
          ensures Less(filed[i].key, last.key)
        {
          if filed[i].key != c.key {
            var j :| 0 <= j < |front| && front[j].key == filed[i].key;
            assert groups[j].key == front[j].key;
          }
        }
      } else {
        forall j | 0 <= j < |front|
          ensures groups[j] == front[j] && AtHome(front[j])
        {}
      }
    }
  }

  lemma NoGroups()
    ensures Sorted([]) && AllAtHome([]) && Flat([]) == []
  {}

  /** The pool by key. */
  function Grouped(pool: seq<Candidate>): seq<Group> {
    if pool == [] then [] else File(Grouped(pool[..|pool| - 1]), pool[|pool| - 1])
  }

  lemma GroupedPush(pool: seq<Candidate>, c: Candidate)
    ensures Grouped(pool + [c]) == File(Grouped(pool), c)
  {
    Halves(pool, [c]);
  }

  method GroupBy(pool: seq<Candidate>) returns (groups: seq<Group>)
    ensures groups == Grouped(pool)
    ensures Sorted(groups) && AllAtHome(groups) && multiset(Flat(groups)) == multiset(pool)
    ensures pool != [] ==> groups != []
  {
    groups := [];
    hide File, Sorted, AllAtHome, Flat;
    var i := 0;
    while i < |pool|
      invariant 0 <= i <= |pool| && groups == Grouped(pool[..i])
    {
      assert pool[..i + 1] == pool[..i] + [pool[i]];
      GroupedPush(pool[..i], pool[i]);
      groups := File(groups, pool[i]);
      i := i + 1;
    }
    assert pool[..i] == pool;
    GroupedFacts(pool);
  }

  lemma {:induction false} GroupedFacts(pool: seq<Candidate>)
    ensures Sorted(Grouped(pool)) && AllAtHome(Grouped(pool)) && multiset(Flat(Grouped(pool))) == multiset(pool)
    ensures pool != [] ==> Grouped(pool) != []
  {
    if pool == [] {
      NoGroups();
    } else {
      var front, last := pool[..|pool| - 1], pool[|pool| - 1];
      GroupedFacts(front);
      FileKeeps(Grouped(front), last);
      FileCounts(Grouped(front), last);
      Rejoin(pool);
      hide File, Sorted, AllAtHome, Flat;
    }
  }

  lemma Carry<T>(a: multiset<T>, b: multiset<T>, c: multiset<T>, d: multiset<T>, e: multiset<T>)
    requires a + b == c + d
    ensures (a + e) + b == (c + e) + d
  {
    assert (a + e) + b == (a + b) + e && (c + e) + d == (c + d) + e;
  }

  lemma Cancel<T>(a: multiset<T>, b: multiset<T>, x: multiset<T>)
    requires a + x == b + x
    ensures a == b
  {
    assert a == (a + x) - x && b == (b + x) - x;
  }

  lemma {:induction false} FlatUpdate(groups: seq<Group>, i: nat, members: seq<Candidate>)
    requires i < |groups|
    ensures multiset(Flat(groups[i := groups[i].(members := members)])) + multiset(groups[i].members)
         == multiset(Flat(groups)) + multiset(members)
    ensures |Flat(groups[i := groups[i].(members := members)])| + |groups[i].members| == |Flat(groups)| + |members|
  {
    var n := |groups| - 1;
    var after := groups[i := groups[i].(members := members)];
    assert Flat(after) == Flat(after[..n]) + after[n].members;
    assert Flat(groups) == Flat(groups[..n]) + groups[n].members;
    hide Flat;
    if i < n {
      FlatUpdate(groups[..n], i, members);
      assert after[..n] == groups[..n][i := groups[i].(members := members)];
      Carry(multiset(Flat(after[..n])), multiset(groups[i].members), multiset(Flat(groups[..n])), multiset(members),
            multiset(groups[n].members));
    } else {
      assert after[..n] == groups[..n];
    }
  }

  lemma {:induction false} FlatEmpty(groups: seq<Group>)
    ensures Flat(groups) == [] <==> forall i :: 0 <= i < |groups| ==> groups[i].members == []
  {
    if groups != [] {
      var front, last := groups[..|groups| - 1], groups[|groups| - 1];
      FlatEmpty(front);
      FlatPush(front, last);
      assert groups == front + [last];
      hide Flat;
    }
  }

  lemma {:induction false} CountFlat(groups: seq<Group>, k: Key)
    requires Sorted(groups) && AllAtHome(groups)
    ensures forall i :: 0 <= i < |groups| && groups[i].key == k ==> CountKey(Flat(groups), k) == |groups[i].members|
    ensures (forall i :: 0 <= i < |groups| ==> groups[i].key != k) ==> CountKey(Flat(groups), k) == 0
  {
    if groups != [] {
      var front, last := groups[..|groups| - 1], groups[|groups| - 1];
      CountFlat(front, k);
      CountAppend(Flat(front), last.members, k);
      CountAll(last.members, last.key, k);
    }
  }

  lemma StillAtHome(groups: seq<Group>, i: nat, members: seq<Candidate>)
    requires i < |groups| && Sorted(groups) && AllAtHome(groups) && multiset(members) <= multiset(groups[i].members)
    ensures Sorted(groups[i := groups[i].(members := members)])
            && AllAtHome(groups[i := groups[i].(members := members)])
  {
    assert AtHome(groups[i]);
    forall j | 0 <= j < |members|
      ensures members[j].key == groups[i].key
    {
      assert members[j] in multiset(members);
      assert members[j] in groups[i].members;
    }
  }

  /** The same groups, each in any order. */
  ghost predicate Shuffles(r: seq<Group>, groups: seq<Group>) {
    && |r| == |groups|
    && forall g :: 0 <= g < |groups| ==>
         r[g].key == groups[g].key && multiset(r[g].members) == multiset(groups[g].members)
  }

  lemma ShufflesKeep(r: seq<Group>, groups: seq<Group>)
    requires Shuffles(r, groups) && Sorted(groups) && AllAtHome(groups)
    ensures Sorted(r) && AllAtHome(r)
    ensures multiset(Flat(r)) == multiset(Flat(groups)) && |Flat(r)| == |Flat(groups)|
  {
    forall g | 0 <= g < |r|
      ensures AtHome(r[g])
    {
      assert AtHome(groups[g]);
      forall i | 0 <= i < |r[g].members|
        ensures r[g].members[i].key == r[g].key
      {
        assert r[g].members[i] in multiset(groups[g].members);
      }
    }
    ShuffledFlat(r, groups);
    assert |multiset(Flat(r))| == |multiset(Flat(groups))|;
  }

  lemma {:induction false} ShuffledFlat(r: seq<Group>, groups: seq<Group>)
    requires Shuffles(r, groups)
    ensures multiset(Flat(r)) == multiset(Flat(groups))
  {
    if r != [] {
      ShuffledFlat(r[..|r| - 1], groups[..|groups| - 1]);
    }
  }

  /** Every group's order becomes arbitrary. */
  method ShuffleAll(groups: seq<Group>) returns (r: seq<Group>)
    requires Sorted(groups) && AllAtHome(groups)
    ensures Shuffles(r, groups) && Sorted(r) && AllAtHome(r)
    ensures multiset(Flat(r)) == multiset(Flat(groups)) && |Flat(r)| == |Flat(groups)|
  {
    r := groups;
    var i := 0;
    while i < |r|
      invariant 0 <= i <= |r| == |groups| && Shuffles(r, groups)
    {
      var members := Shuffle(r[i].members);
      r := r[i := r[i].(members := members)];
      i := i + 1;
    }
    ShufflesKeep(r, groups);
  }

  // ---- The round robin. ----

  /** Some full rounds, and a position in the next. */
  datatype Turn = Turn(round: nat, pos: nat) {
    /** How often a group has been visited. */
    function Visits(g: nat): nat { round + if g < pos then 1 else 0 }

    function Next(m: nat): Turn { if pos + 1 == m then Turn(round + 1, 0) else Turn(round, pos + 1) }

    ghost predicate At(index: nat, m: nat) { pos < m && index == round * m + pos }
  }

  /** Each group has given one candidate a visit for as long as it had any, and keeps the rest. */
  ghost predicate FairShares(start: seq<Group>, groups: seq<Group>, picks: seq<Candidate>, turn: Turn) {
    && |groups| == |start|
    && forall g :: 0 <= g < |start| ==> Share(start[g], groups[g], CountKey(picks, start[g].key), turn.Visits(g))
  }

  predicate Share(start: Group, rest: Group, given: nat, visits: nat) {
    && rest.key == start.key && rest.members <= start.members
    && given == Min(visits, |start.members|) && |rest.members| == |start.members| - given
  }

  lemma TurnFacts(index: nat, turn: Turn, m: nat)
    requires turn.At(index, m)
    ensures turn.pos < m && index % m == turn.pos && turn.Next(m).At(index + 1, m)
  {
    var q, r := index / m, index % m;
    Distribute(q, turn.round, m);
    Small(q - turn.round, m, turn.pos - r);
    Distribute(turn.round + 1, turn.round, m);
  }

  lemma Distribute(a: int, b: int, m: int)
    ensures a * m - b * m == (a - b) * m
  {}

  lemma Small(d: int, m: nat, x: int)
    requires d * m == x && 0 - m < x < m
    ensures x == 0
  {
    if d > 0 {
      AtLeast(d, m);
    } else if d < 0 {
      AtLeast(-d, m);
      Distribute(0, d, m);
    }
  }

  lemma {:induction false} AtLeast(d: nat, m: nat)
    requires d >= 1
    ensures d * m >= m
  {
    if d > 1 {
      AtLeast(d - 1, m);
      Distribute(d, d - 1, m);
    }
  }

  /** Whether the next group with anything left comes only after the end of this round. */
  function NextRound(groups: seq<Group>, pos: nat): nat {
    if exists g | pos <= g < |groups| :: groups[g].members != [] then 0 else 1
  }

  lemma EmptyVisit(groups: seq<Group>, turn: Turn)
    requires turn.pos < |groups| && groups[turn.pos].members == []
    requires exists g :: 0 <= g < |groups| && groups[g].members != []
    ensures var next := turn.Next(|groups|);
      || NextRound(groups, next.pos) < NextRound(groups, turn.pos)
      || (NextRound(groups, next.pos) == NextRound(groups, turn.pos) && turn.pos < next.pos)
  {}

  /** One visit: the group gives its last candidate if it has one. */
  lemma VisitIsFair(start: seq<Group>, groups: seq<Group>, picks: seq<Candidate>, turn: Turn)
    requires Sorted(start) && AllAtHome(groups) && FairShares(start, groups, picks, turn) && turn.pos < |start|
    ensures var members := groups[turn.pos].members;
      if members == [] then FairShares(start, groups, picks, turn.Next(|start|))
      else FairShares(start, GiveOne(groups, turn.pos), picks + [members[|members| - 1]], turn.Next(|start|))
  {
    hide Sorted, AllAtHome, CountKey, Share;
    forall g | 0 <= g < |start|
      ensures var members := groups[turn.pos].members;
        if members == [] then
          Share(start[g], groups[g], CountKey(picks, start[g].key), turn.Next(|start|).Visits(g))
        else
          Share(start[g], GiveOne(groups, turn.pos)[g], CountKey(picks + [members[|members| - 1]], start[g].key),
                turn.Next(|start|).Visits(g))
    {
      ShareAfterVisit(start, groups, picks, turn, g);
    }
  }

  lemma ShareAfterVisit(start: seq<Group>, groups: seq<Group>, picks: seq<Candidate>, turn: Turn, g: nat)
    requires Sorted(start) && AllAtHome(groups) && FairShares(start, groups, picks, turn)
    requires turn.pos < |start| && g < |start|
    ensures var members := groups[turn.pos].members;
      if members == [] then
        Share(start[g], groups[g], CountKey(picks, start[g].key), turn.Next(|start|).Visits(g))
      else
        Share(start[g], GiveOne(groups, turn.pos)[g], CountKey(picks + [members[|members| - 1]], start[g].key),
              turn.Next(|start|).Visits(g))
  {
    hide CountKey, Sorted, Share, AtHome;
    var pos := turn.pos;
    var members := groups[pos].members;
    if g == pos {
      OwnShare(start[pos], groups[pos], picks, turn.Visits(pos));
    } else if members != [] {
      KeysApart(start, g, pos);
      SameKey(start[pos], groups[pos], CountKey(picks, start[pos].key), turn.Visits(pos));
      OtherShare(start[g], groups[g], picks, groups[pos], turn.Visits(g));
    }
  }

  lemma KeysApart(groups: seq<Group>, i: nat, j: nat)
    requires Sorted(groups) && i < |groups| && j < |groups| && i != j
    ensures groups[i].key != groups[j].key
  {}

  lemma SameKey(start: Group, rest: Group, given: nat, visits: nat)
    requires Share(start, rest, given, visits)
    ensures rest.key == start.key
  {}

  /** A visit to another group takes nothing from this one's share. */
  lemma OtherShare(start: Group, group: Group, picks: seq<Candidate>, visited: Group, visits: nat)
    requires Share(start, group, CountKey(picks, start.key), visits)
    requires AtHome(visited) && visited.members != [] && visited.key != start.key
    ensures Share(start, group, CountKey(picks + [visited.members[|visited.members| - 1]], start.key), visits)
  {
    CountPush(picks, visited.members[|visited.members| - 1], start.key);
    hide CountKey;
  }

  /** What a visit does to the share of the visited group. */
  lemma OwnShare(start: Group, group: Group, picks: seq<Candidate>, visits: nat)
    requires AtHome(group) && Share(start, group, CountKey(picks, start.key), visits)
    ensures var members := group.members;
      if members == [] then Share(start, group, CountKey(picks, start.key), visits + 1)
      else Share(start, group.(members := members[..|members| - 1]),
                 CountKey(picks + [members[|members| - 1]], start.key), visits + 1)
  {
    if group.members != [] {
      CountPush(picks, group.members[|group.members| - 1], start.key);
    }
    hide CountKey;
  }

  function GiveOne(groups: seq<Group>, g: nat): seq<Group>
    requires g < |groups| && groups[g].members != []
  {
    groups[g := groups[g].(members := groups[g].members[..|groups[g].members| - 1])]
  }

  /** What the loop keeps: nothing is lost between the groups and the picks, and the shares are fair. */
  ghost predicate Sharing(start: seq<Group>, groups: seq<Group>, picks: seq<Candidate>, turn: Turn) {
    && |groups| == |start| && Sorted(groups) && AllAtHome(groups)
    && multiset(picks) + multiset(Flat(groups)) == multiset(Flat(start)) && |picks| + |Flat(groups)| == |Flat(start)|
    && FairShares(start, groups, picks, turn)
  }

  lemma VisitKeepsSharing(start: seq<Group>, groups: seq<Group>, picks: seq<Candidate>, turn: Turn)
    requires Sorted(start) && Sharing(start, groups, picks, turn) && turn.pos < |start|
    ensures var members := groups[turn.pos].members;
      if members == [] then Sharing(start, groups, picks, turn.Next(|start|))
      else Sharing(start, GiveOne(groups, turn.pos), picks + [members[|members| - 1]], turn.Next(|start|))
  {
    VisitIsFair(start, groups, picks, turn);
    hide Sorted, AllAtHome, Flat, FairShares;
    if groups[turn.pos].members != [] {
      Pop(groups, turn.pos);
    }
  }

  lemma SharingStarts(selected: seq<Candidate>, start: seq<Group>)
    requires start != [] && Sorted(start) && AllAtHome(start)
    ensures Sharing(start, start, [], Turn(0, 0)) && Turn(0, 0).At(0, |start|) && PutAll(selected, []) == selected
  {}

  /** Where the loop stops, everything given came from the groups, up to the budget. */
  lemma SharingEnds(start: seq<Group>, groups: seq<Group>, picks: seq<Candidate>, turn: Turn)
    requires Sharing(start, groups, picks, turn)
    ensures multiset(picks) <= multiset(Flat(start)) && |picks| <= |Flat(start)|
    ensures (forall g :: 0 <= g < |groups| ==> groups[g].members == []) ==> |picks| == |Flat(start)|
    ensures FairShares(start, groups, picks, turn)
  {
    FlatEmpty(groups);
  }

  predicate AllEmpty(groups: seq<Group>) {
    forall g | 0 <= g < |groups| :: groups[g].members == []
  }

  /** What the groups give, in order, to `left` places from this turn on. */
  function Filled(groups: seq<Group>, turn: Turn, left: nat): (picks: seq<Candidate>)
    decreases left, NextRound(groups, turn.pos), |groups| - turn.pos
  {
    if left == 0 || AllEmpty(groups) || turn.pos >= |groups| then []
    else
      var members := groups[turn.pos].members;
      if members == [] then
        EmptyVisit(groups, turn);
        Filled(groups, turn.Next(|groups|), left)
      else
        [members[|members| - 1]] + Filled(GiveOne(groups, turn.pos), turn.Next(|groups|), left - 1)
  }

  lemma FilledStops(groups: seq<Group>, turn: Turn, left: nat)
    requires left == 0 || AllEmpty(groups)
    ensures Filled(groups, turn, left) == []
  {}

  lemma FilledSkips(groups: seq<Group>, turn: Turn, left: nat)
    requires turn.pos < |groups| && groups[turn.pos].members == []
    ensures Filled(groups, turn, left) == Filled(groups, turn.Next(|groups|), left)
  {}

  lemma FilledGives(picks: seq<Candidate>, groups: seq<Group>, turn: Turn, left: nat)
    requires turn.pos < |groups| && groups[turn.pos].members != [] && left > 0
    ensures var members := groups[turn.pos].members;
      var c := members[|members| - 1];
      picks + Filled(groups, turn, left)
      == (picks + [c]) + Filled(GiveOne(groups, turn.pos), turn.Next(|groups|), left - 1)
  {
    var members := groups[turn.pos].members;
    Assoc(picks, [members[|members| - 1]], Filled(GiveOne(groups, turn.pos), turn.Next(|groups|), left - 1));
  }

  /** Visit the groups in turn until the budget or the groups run out. */
  method Fill(selected: seq<Candidate>, start: seq<Group>, budget: nat)
    returns (r: seq<Candidate>, ghost picks: seq<Candidate>, ghost rest: seq<Group>, ghost turn: Turn)
    requires start != [] && Sorted(start) && AllAtHome(start)
    ensures r == PutAll(selected, picks) && multiset(picks) <= multiset(Flat(start))
    ensures picks == Filled(start, Turn(0, 0), budget)
    ensures |picks| == Min(budget, |Flat(start)|)
    ensures FairShares(start, rest, picks, turn)
    ensures Distinct(selected) ==> Distinct(r) && |r| <= |selected| + budget && Within(r, selected + Flat(start))
  {
    hide *;
    r, picks := selected, [];
    var groups, left, index := start, budget, 0;
    turn := Turn(0, 0);
    SharingStarts(selected, start);
    Empty(Filled(start, turn, budget));
    while left > 0 && exists g | 0 <= g < |groups| :: groups[g].members != []
      invariant r == PutAll(selected, picks) && |picks| + left == budget && |groups| == |start|
      invariant Sharing(start, groups, picks, turn) && turn.At(index, |start|)
      invariant picks + Filled(groups, turn, left) == Filled(start, Turn(0, 0), budget)
      decreases left, NextRound(groups, turn.pos), |start| - turn.pos
    {
      TurnFacts(index, turn, |start|);
      VisitKeepsSharing(start, groups, picks, turn);
      var g := index % |groups|;
      if groups[g].members != [] {
        var c := groups[g].members[|groups[g].members| - 1];
        PutAllPush(selected, picks, c);
        GiveOneLength(groups, g);
        FilledGives(picks, groups, turn, left);
        groups := GiveOne(groups, g);
        r, picks := Put(r, c), picks + [c];
        left := left - 1;
      } else {
        EmptyVisit(groups, turn);
        FilledSkips(groups, turn, left);
      }
      turn := turn.Next(|start|);
      index := index + 1;
    }
    rest := groups;
    NoneLeft(groups, left);
    FilledStops(groups, turn, left);
    Empty(picks);
    SharingEnds(start, groups, picks, turn);
    MinIs(budget, |Flat(start)|);
    if Distinct(selected) {
      FilledFacts(selected, picks, Flat(start));
    }
  }

  lemma NoneLeft(groups: seq<Group>, left: nat)
    requires left == 0 || !exists g | 0 <= g < |groups| :: groups[g].members != []
    ensures left == 0 || AllEmpty(groups)
  {}

  /** The shares behind what is filled, for any start. */
  lemma {:induction false} FilledShares(start: seq<Group>, groups: seq<Group>, picks: seq<Candidate>, turn: Turn,
                                        left: nat)
    returns (rest: seq<Group>, end: Turn)
    requires Sorted(start) && Sharing(start, groups, picks, turn) && turn.pos < |start|
    ensures Sharing(start, rest, picks + Filled(groups, turn, left), end)
    ensures |Filled(groups, turn, left)| == Min(left, |Flat(groups)|)
    decreases left, NextRound(groups, turn.pos), |start| - turn.pos
  {
    hide Sharing, Sorted, Filled, Flat;
    SharingLength(start, groups, picks, turn);
    if left == 0 || AllEmpty(groups) {
      FilledStops(groups, turn, left);
      FlatEmpty(groups);
      Empty(picks);
      rest, end := groups, turn;
    } else if groups[turn.pos].members == [] {
      EmptyVisit(groups, turn);
      FilledSkips(groups, turn, left);
      VisitKeepsSharing(start, groups, picks, turn);
      rest, end := FilledShares(start, groups, picks, turn.Next(|start|), left);
    } else {
      var members := groups[turn.pos].members;
      var c := members[|members| - 1];
      VisitKeepsSharing(start, groups, picks, turn);
      FilledGives(picks, groups, turn, left);
      PopsOne(start, groups, picks, turn);
      rest, end := FilledShares(start, GiveOne(groups, turn.pos), picks + [c], turn.Next(|start|), left - 1);
      Lengths(picks, c, Filled(groups, turn, left), Filled(GiveOne(groups, turn.pos), turn.Next(|groups|), left - 1));
    }
  }

  lemma SharingLength(start: seq<Group>, groups: seq<Group>, picks: seq<Candidate>, turn: Turn)
    requires Sharing(start, groups, picks, turn)
    ensures |groups| == |start|
  {}

  lemma PopsOne(start: seq<Group>, groups: seq<Group>, picks: seq<Candidate>, turn: Turn)
    requires Sharing(start, groups, picks, turn) && turn.pos < |groups| && groups[turn.pos].members != []
    ensures |Flat(GiveOne(groups, turn.pos))| + 1 == |Flat(groups)|
  {
    Pop(groups, turn.pos);
  }

  lemma Lengths(picks: seq<Candidate>, c: Candidate, all: seq<Candidate>, later: seq<Candidate>)
    requires picks + all == (picks + [c]) + later
    ensures |all| == 1 + |later|
  {
    assert |picks + all| == |(picks + [c]) + later|;
  }

  lemma FilledFacts(selected: seq<Candidate>, picks: seq<Candidate>, pool: seq<Candidate>)
    requires Distinct(selected) && multiset(picks) <= multiset(pool)
    ensures var r := PutAll(selected, picks);
      Distinct(r) && |r| <= |selected| + |picks| && Within(r, selected + pool)
  {
    PartFacts(picks, pool);
    PutAllFacts(selected, picks, selected + pool);
  }

  lemma GiveOneLength(groups: seq<Group>, g: nat)
    requires g < |groups| && groups[g].members != []
    ensures |GiveOne(groups, g)| == |groups|
  {}

  lemma Pop(groups: seq<Group>, g: nat)
    requires g < |groups| && groups[g].members != [] && Sorted(groups) && AllAtHome(groups)
    ensures var (members, after) := (groups[g].members, GiveOne(groups, g));
      && Sorted(after) && AllAtHome(after) && |Flat(after)| + 1 == |Flat(groups)|
      && multiset(Flat(after)) + multiset{members[|members| - 1]} == multiset(Flat(groups))
  {
    var members := groups[g].members;
    var front := members[..|members| - 1];
    assert members == front + [members[|members| - 1]];
    StillAtHome(groups, g, front);
    FlatUpdate(groups, g, front);
    var after := groups[g := groups[g].(members := front)];
    var last := multiset{members[|members| - 1]};
    assert multiset(members) == multiset(front) + last;
    assert (multiset(Flat(after)) + last) + multiset(front) == multiset(Flat(after)) + multiset(members);
    Cancel(multiset(Flat(after)) + last, multiset(Flat(groups)), multiset(front));
  }
}
