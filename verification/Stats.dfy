/** The dashboard statistics, and what they conserve when alerts have several verdicts. */
module Stats {
  import opened ReadSide
  import opened Relational
  import opened Seqs
  import opened Wrappers

  datatype StatsOut = StatsOut(
    totalAlerts: nat, byStatus: map<string, int>, bySeverity: map<int, int>, byCategory: map<string, int>,
    escalated: nat, volumeByDay: map<int, int>, costTotal: int, costByDay: map<int, int>, alertsByDay: map<int, int>)

  const STATUSES := ["pending", "triaged", "failed"]
  const CATEGORIES := [
    "scanning", "brute_force", "reconnaissance", "successful_intrusion", "malware_delivery", "persistence_attempt",
    "other"
  ]

  function SeverityOf(v: Verdict): int { v.severity }
  function CategoryOf(v: Verdict): string { v.category }
  function StatusOf(a: Alert): string { a.status }
  function DayOf(a: Alert): int { a.receivedAt / DAY }
  function CostOf(v: Verdict): int { if v.cost.Some? then v.cost.value else 0 }
  function One<T>(x: T): int { 1 }

  /** `count(*)` by key. */
  function Counts<T, K(==)>(s: seq<T>, key: T -> K): map<K, int> { GroupSum(s, key, One) }

  /** Every alert with every verdict of it, or once with none. */
  function Spend(db: Database): seq<BaseRow> { LeftJoin(db.alerts, db.verdicts, OnAlert) }

  function SpendDay(r: BaseRow): int { DayOf(r.0) }
  function SpendCost(r: BaseRow): int { if r.1.Some? then CostOf(r.1.value) else 0 }

  function IdsOn(rows: seq<BaseRow>, day: int): set<int> {
    set r | r in rows && SpendDay(r) == day :: r.0.id
  }

  /** `count(DISTINCT alerts.id)` by day. */
  function DistinctAlertsByDay(rows: seq<BaseRow>): map<int, int> {
    var days := set r | r in rows :: SpendDay(r);
    map d | d in days :: |IdsOn(rows, d)|
  }

  /** Zeroes for every label, then the groups the query returned. */
  method FillCounts<K(==, !new)>(labels: seq<K>, groups: map<K, int>) returns (counts: map<K, int>)
    ensures SameCounts(counts, groups)
    ensures forall k :: k in counts <==> k in labels || k in groups
  {
    counts := map[];
    var i := 0;
    while i < |labels|
      invariant 0 <= i <= |labels|
      invariant forall k :: k in counts <==> k in labels[..i]
      invariant forall k :: k in counts ==> counts[k] == 0
    {
      counts := counts[labels[i] := 0];
      i := i + 1;
    }
    var left := groups.Keys;
    while left != {}
      invariant left <= groups.Keys
      invariant forall k :: k in counts <==> k in labels || (k in groups && k !in left)
      invariant forall k :: k in counts ==> counts[k] == if k in groups && k !in left then groups[k] else 0
      decreases |left|
    {
      var k :| k in left;
      counts := counts[k := groups[k]];
      left := left - {k};
    }
  }

  /** The statistics conserve what they count. */
  ghost predicate Conserves(db: Database, s: StatsOut) {
    && s.totalAlerts == |db.alerts|
    && Sum(s.byStatus) == s.totalAlerts && Sum(s.volumeByDay) == s.totalAlerts
    && Sum(s.bySeverity) == Sum(s.byCategory) == |Where(Base(db), HasVerdict)|
    && Sum(s.costByDay) == s.costTotal
    && SameCounts(s.alertsByDay, s.volumeByDay) && Sum(s.alertsByDay) == s.totalAlerts
  }

  predicate HasVerdict(r: BaseRow) { r.1.Some? }

  method GetStats(db: Database) returns (s: StatsOut)
    ensures db.Sound() ==> Conserves(db, s)
    ensures forall k :: Get(s.byStatus, k) == |Where(db.alerts, (a: Alert) => a.status == k)|
    ensures forall k :: Get(s.bySeverity, k) == |Where(Latest(db), (v: Verdict) => v.severity == k)|
    ensures forall k :: Get(s.byCategory, k) == |Where(Latest(db), (v: Verdict) => v.category == k)|
    ensures s.escalated == |Where(Latest(db), (v: Verdict) => v.escalate)| && s.costTotal == Bill(db.verdicts)
    ensures forall day :: Get(s.volumeByDay, day) == |Where(db.alerts, (a: Alert) => OnDay(a.receivedAt, day))|
    ensures forall day :: Get(s.costByDay, day) == SpentOn(db.alerts, db.verdicts, day)
    ensures forall k: int :: 1 <= k <= 5 ==> k in s.bySeverity
    ensures forall k <- ["pending", "triaged", "failed"] :: k in s.byStatus
    ensures "scanning" in s.byCategory && "brute_force" in s.byCategory && "reconnaissance" in s.byCategory
            && "successful_intrusion" in s.byCategory && "malware_delivery" in s.byCategory
            && "persistence_attempt" in s.byCategory && "other" in s.byCategory
  {
    hide *;
    var latest := Latest(db);
    var byStatus := FillCounts(STATUSES, Counts(db.alerts, StatusOf));
    var bySeverity := FillCounts([1, 2, 3, 4, 5], Counts(latest, SeverityOf));
    var byCategory := FillCounts(CATEGORIES, Counts(latest, CategoryOf));
    var volume := Counts(db.alerts, DayOf);
    var rows := Spend(db);
    CountsByKey(db.alerts, latest, byStatus, bySeverity, byCategory, volume);
    forall day
      ensures Get(GroupSum(rows, SpendDay, SpendCost), day) == SpentOn(db.alerts, db.verdicts, day)
    {
      DailySpend(db, day);
    }
    BillIsWeight(db.verdicts);
    LabelsAre();
    s := StatsOut(|db.alerts|, byStatus, bySeverity, byCategory, |Where(latest, (v: Verdict) => v.escalate)|, volume,
                  Weigh(db.verdicts, CostOf), GroupSum(rows, SpendDay, SpendCost), DistinctAlertsByDay(rows));
    if db.Sound() {
      StatsConserve(db, s);
    }
  }

  lemma CountsAreRows<T(!new), K(!new)>(s: seq<T>, key: T -> K, counts: map<K, int>)
    requires SameCounts(counts, Counts(s, key))
    ensures forall k :: Get(counts, k) == |Where(s, Keyed(key, k))|
  {
    forall k
      ensures Get(counts, k) == |Where(s, Keyed(key, k))|
    {
      GroupIsItsRows(s, key, One, k);
      WeighOnes(Where(s, Keyed(key, k)), One);
    }
  }

  /** An instant is on a day from its midnight on and before the next. */
  predicate OnDay(t: int, day: int) { day * DAY <= t < (day + 1) * DAY }

  /** What verdicts cost; one without a cost costs nothing. */
  function Bill(verdicts: seq<Verdict>): int {
    if verdicts == [] then 0
    else Bill(verdicts[..|verdicts| - 1]) + match verdicts[|verdicts| - 1].cost case None => 0 case Some(c) => c
  }

  /** What the verdicts of one alert cost. */
  function BillOf(verdicts: seq<Verdict>, alertId: int): int {
    if verdicts == [] then 0
    else
      var last := verdicts[|verdicts| - 1];
      BillOf(verdicts[..|verdicts| - 1], alertId)
      + if last.alertId != alertId then 0 else match last.cost case None => 0 case Some(c) => c
  }

  /** What the verdicts of the alerts that arrived on a day cost. */
  function SpentOn(alerts: seq<Alert>, verdicts: seq<Verdict>, day: int): int {
    if alerts == [] then 0
    else
      var last := alerts[|alerts| - 1];
      SpentOn(alerts[..|alerts| - 1], verdicts, day)
      + if OnDay(last.receivedAt, day) then BillOf(verdicts, last.id) else 0
  }

  lemma LabelsAre()
    ensures forall k <- ["pending", "triaged", "failed"] :: k in STATUSES
    ensures "scanning" in CATEGORIES && "brute_force" in CATEGORIES && "reconnaissance" in CATEGORIES
            && "successful_intrusion" in CATEGORIES && "malware_delivery" in CATEGORIES
            && "persistence_attempt" in CATEGORIES && "other" in CATEGORIES
    ensures forall k: int :: 1 <= k <= 5 ==> k in [1, 2, 3, 4, 5]
  {
    assert STATUSES[0] == "pending" && STATUSES[1] == "triaged" && STATUSES[2] == "failed";
    assert CATEGORIES[0] == "scanning" && CATEGORIES[1] == "brute_force" && CATEGORIES[2] == "reconnaissance"
        && CATEGORIES[3] == "successful_intrusion" && CATEGORIES[4] == "malware_delivery"
        && CATEGORIES[5] == "persistence_attempt" && CATEGORIES[6] == "other";
  }

  lemma CountsByKey(alerts: seq<Alert>, latest: seq<Verdict>, byStatus: map<string, int>, bySeverity: map<int, int>,
                    byCategory: map<string, int>, volume: map<int, int>)
    requires SameCounts(byStatus, Counts(alerts, StatusOf)) && SameCounts(bySeverity, Counts(latest, SeverityOf))
    requires SameCounts(byCategory, Counts(latest, CategoryOf)) && volume == Counts(alerts, DayOf)
    ensures forall k :: Get(byStatus, k) == |Where(alerts, (a: Alert) => a.status == k)|
    ensures forall k :: Get(bySeverity, k) == |Where(latest, (v: Verdict) => v.severity == k)|
    ensures forall k :: Get(byCategory, k) == |Where(latest, (v: Verdict) => v.category == k)|
    ensures forall day :: Get(volume, day) == |Where(alerts, (a: Alert) => OnDay(a.receivedAt, day))|
  {
    hide Counts, Where, Get;
    CountsAreRows(alerts, StatusOf, byStatus);
    CountsAreRows(latest, SeverityOf, bySeverity);
    CountsAreRows(latest, CategoryOf, byCategory);
    CountsAreRows(alerts, DayOf, volume);
    forall k
      ensures Get(byStatus, k) == |Where(alerts, (a: Alert) => a.status == k)|
      ensures Get(byCategory, k) == |Where(latest, (v: Verdict) => v.category == k)|
    {
      SameWhere(alerts, Keyed(StatusOf, k), (a: Alert) => a.status == k);
      SameWhere(latest, Keyed(CategoryOf, k), (v: Verdict) => v.category == k);
    }
    forall k
      ensures Get(bySeverity, k) == |Where(latest, (v: Verdict) => v.severity == k)|
      ensures Get(volume, k) == |Where(alerts, (a: Alert) => OnDay(a.receivedAt, k))|
    {
      SameWhere(latest, Keyed(SeverityOf, k), (v: Verdict) => v.severity == k);
      SameWhere(alerts, Keyed(DayOf, k), (a: Alert) => OnDay(a.receivedAt, k));
    }
  }

  lemma {:induction false} SameWhere<T(!new)>(s: seq<T>, p: T -> bool, q: T -> bool)
    requires forall x :: p(x) <==> q(x)
    ensures Where(s, p) == Where(s, q)
  {
    if s != [] {
      SameWhere(s[..|s| - 1], p, q);
    }
  }

  lemma {:induction false} BillIsWeight(verdicts: seq<Verdict>)
    ensures Weigh(verdicts, CostOf) == Bill(verdicts)
  {
    if verdicts != [] {
      BillIsWeight(verdicts[..|verdicts| - 1]);
    }
  }

  lemma {:induction false} OwnBill(a: Alert, verdicts: seq<Verdict>)
    ensures Weigh(Where(verdicts, Matching(OnAlert, a)), CostOf) == BillOf(verdicts, a.id)
  {
    if verdicts != [] {
      var front, last := verdicts[..|verdicts| - 1], verdicts[|verdicts| - 1];
      OwnBill(a, front);
      Rejoin(verdicts);
      OwnCost(a, front, last);
      hide Weigh, Where;
    }
  }

  lemma {:induction false} WhereAppend<T(!new)>(a: seq<T>, b: seq<T>, p: T -> bool)
    ensures Where(a + b, p) == Where(a, p) + Where(b, p)
  {
    if b == [] {
      Empty(a);
      Empty(Where(a, p));
    } else {
      var front, last := b[..|b| - 1], b[|b| - 1];
      WhereAppend(a, front, p);
      Rejoin(b);
      Assoc(a, front, [last]);
      WherePush(a + front, last, p);
      WherePush(front, last, p);
      hide Where;
      Assoc(Where(a, p), Where(front, p), if p(last) then [last] else []);
    }
  }

  lemma {:induction false} WhereAllOrNone<T(!new)>(s: seq<T>, p: T -> bool, all: bool)
    requires forall x :: x in s ==> p(x) == all
    ensures Where(s, p) == if all then s else []
  {
    if s != [] {
      var front, last := s[..|s| - 1], s[|s| - 1];
      Rejoin(s);
      assert last in s;
      WhereAllOrNone(front, p, all);
      WherePush(front, last, p);
      hide Where;
    }
  }

  /** The joined rows of a day spend what the verdicts of its alerts cost. */
  lemma {:induction false} DailyCost(alerts: seq<Alert>, verdicts: seq<Verdict>, day: int)
    ensures Weigh(Where(LeftJoin(alerts, verdicts, OnAlert), Keyed(SpendDay, day)), SpendCost)
         == SpentOn(alerts, verdicts, day)
  {
    if alerts != [] {
      var front, last := alerts[..|alerts| - 1], alerts[|alerts| - 1];
      var p, own := Keyed(SpendDay, day), Where(verdicts, Matching(OnAlert, last));
      var pair := Pair(last, own);
      DailyCost(front, verdicts, day);
      JoinStep(alerts, verdicts, OnAlert);
      PairDay(last, own, day);
      PairCost(last, own);
      OwnBill(last, verdicts);
      hide LeftJoin, Pair, Where, Weigh, BillOf;
      var before := LeftJoin(front, verdicts, OnAlert);
      WhereAppend(before, pair, p);
      WhereAllOrNone(pair, p, OnDay(last.receivedAt, day));
      WeighAppend(Where(before, p), Where(pair, p), SpendCost);
      WeighNothing();
    }
  }

  lemma DailySpend(db: Database, day: int)
    ensures Get(GroupSum(Spend(db), SpendDay, SpendCost), day) == SpentOn(db.alerts, db.verdicts, day)
  {
    hide Get, Weigh, Where, LeftJoin, GroupSum, SpentOn;
    DailyCost(db.alerts, db.verdicts, day);
    GroupIsItsRows(Spend(db), SpendDay, SpendCost, day);
  }

  lemma WeighNothing()
    ensures Weigh([], SpendCost) == 0
  {}

  lemma PairDay(a: Alert, own: seq<Verdict>, day: int)
    ensures forall r :: r in Pair(a, own) ==> Keyed(SpendDay, day)(r) == OnDay(a.receivedAt, day)
  {
    DayIs(a.receivedAt, day);
    forall r | r in Pair(a, own)
      ensures Keyed(SpendDay, day)(r) == OnDay(a.receivedAt, day)
    {
      assert r.0 == a;
      assert Keyed(SpendDay, day)(r) == (SpendDay(r) == day);
    }
  }

  lemma DayIs(t: int, day: int)
    ensures t / DAY == day <==> OnDay(t, day)
  {
  }

  lemma StatsConserve(db: Database, s: StatsOut)
    requires db.Sound() && s.totalAlerts == |db.alerts| && s.costTotal == Weigh(db.verdicts, CostOf)
    requires SameCounts(s.byStatus, Counts(db.alerts, StatusOf))
    requires SameCounts(s.bySeverity, Counts(Latest(db), SeverityOf))
    requires SameCounts(s.byCategory, Counts(Latest(db), CategoryOf))
    requires s.volumeByDay == Counts(db.alerts, DayOf)
    requires s.costByDay == GroupSum(Spend(db), SpendDay, SpendCost) && s.alertsByDay == DistinctAlertsByDay(Spend(db))
    ensures Conserves(db, s)
  {
    CountsAddUp(db.alerts, StatusOf, s.byStatus);
    CountsAddUp(Latest(db), SeverityOf, s.bySeverity);
    CountsAddUp(Latest(db), CategoryOf, s.byCategory);
    CountsAddUp(db.alerts, DayOf, s.volumeByDay);
    LatestIsTheVerdicted(db);
    GroupsAddUp(Spend(db), SpendDay, SpendCost);
    SpendIsTheBill(db);
    DailyAlertsAreTheVolume(db);
    SumByGet(s.alertsByDay, s.volumeByDay);
  }

  lemma CountsAddUp<T(!new), K(!new)>(s: seq<T>, key: T -> K, counts: map<K, int>)
    requires SameCounts(counts, Counts(s, key))
    ensures Sum(counts) == |s|
  {
    SumByGet(counts, Counts(s, key));
    GroupsAddUp(s, key, One);
    WeighOnes(s, One);
  }

  // ---- One latest verdict for every alert that has any. ----

  ghost function Keys<T, K(!new)>(s: seq<T>, key: T -> K): set<K> {
    set i | 0 <= i < |s| :: key(s[i])
  }

  lemma {:induction false} DistinctKeysCount<T, K(!new)>(s: seq<T>, key: T -> K)
    requires DistinctKeys(s, key)
    ensures |Keys(s, key)| == |s|
  {
    if s != [] {
      var front, last := s[..|s| - 1], s[|s| - 1];
      DistinctKeysCount(front, key);
      KeysPush(s, key);
      assert key(last) !in Keys(front, key);
      hide Keys;
    }
  }

  lemma KeysPush<T, K(!new)>(s: seq<T>, key: T -> K)
    requires s != []
    ensures Keys(s, key) == Keys(s[..|s| - 1], key) + {key(s[|s| - 1])}
  {
    var front, last := s[..|s| - 1], s[|s| - 1];
    forall k | k in Keys(s, key)
      ensures k in Keys(front, key) + {key(last)}
    {
      var i :| 0 <= i < |s| && key(s[i]) == k;
      assert i < |front| ==> key(front[i]) == k;
    }
    forall k | k in Keys(front, key)
      ensures k in Keys(s, key)
    {
      var i :| 0 <= i < |front| && key(front[i]) == k;
      assert key(s[i]) == k;
    }
  }

  lemma LatestIsTheVerdicted(db: Database)
    requires db.Sound()
    ensures |Latest(db)| == |Where(Base(db), HasVerdict)|
  {
    LatestFacts(db);
    BaseFacts(db);
    var latest, rows := Latest(db), Where(Base(db), HasVerdict);
    WhereMultiset(Base(db), HasVerdict);
    KeysStayDistinct(Base(db), rows, IdOfBase);
    assert DistinctKeys(latest, AlertOf);
    DistinctKeysCount(latest, AlertOf);
    DistinctKeysCount(rows, IdOfBase);
    SameAlerts(db);
  }

  lemma SameAlerts(db: Database)
    requires db.Sound()
    ensures Keys(Latest(db), AlertOf) == Keys(Where(Base(db), HasVerdict), IdOfBase)
  {
    var latest, rows := Latest(db), Where(Base(db), HasVerdict);
    forall id
      ensures id in Keys(latest, AlertOf) <==> LatestOf(db, id).Some?
      ensures id in Keys(rows, IdOfBase) <==> LatestOf(db, id).Some?
    {
      LatestHasKey(db, id);
      VerdictedHasId(db, id);
    }
  }

  lemma LatestHasKey(db: Database, id: int)
    ensures id in Keys(Latest(db), AlertOf) <==> LatestOf(db, id).Some?
  {
    LatestFacts(db);
    OrdersAreTotal();
    var latest, own := Latest(db), Where(db.verdicts, Keyed(AlertOf, id));
    HeadIsLeast(own, Newest);
    hide Latest, TotalOrder, OrderBy;
    if id in Keys(latest, AlertOf) {
      var i :| 0 <= i < |latest| && AlertOf(latest[i]) == id;
      assert LeastOfKey(latest[i], db.verdicts, AlertOf, ByAlertNewest);
      assert latest[i] in own;
    }
    if own != [] {
      assert own[0] in own;
      assert HasKey(latest, id, AlertOf);
      var i :| 0 <= i < |latest| && AlertOf(latest[i]) == id;
    }
  }

  lemma VerdictedHasId(db: Database, id: int)
    requires db.Sound()
    ensures id in Keys(Where(Base(db), HasVerdict), IdOfBase) <==> LatestOf(db, id).Some?
  {
    hide Base, LatestOf, Where;
    BaseFacts(db);
    LatestIsNewest(db, id);
    var rows := Where(Base(db), HasVerdict);
    if id in Keys(rows, IdOfBase) {
      var i :| 0 <= i < |rows| && IdOfBase(rows[i]) == id;
      assert rows[i] in rows && HasVerdict(rows[i]);
    }
    if LatestOf(db, id).Some? {
      var v := LatestOf(db, id).value;
      assert v in db.verdicts && v.alertId == id;
      var a :| a in db.alerts && a.id == id;
      var r := (a, LatestOf(db, id));
      assert r in Base(db) && HasVerdict(r);
      assert r in rows;
      var i :| 0 <= i < |rows| && rows[i] == r;
      assert IdOfBase(rows[i]) == id;
    }
  }

  // ---- Every verdict is spent once. ----

  lemma {:induction false} WeighAppend<T>(a: seq<T>, b: seq<T>, weight: T -> int)
    ensures Weigh(a + b, weight) == Weigh(a, weight) + Weigh(b, weight)
  {
    if b == [] {
      Empty(a);
    } else {
      WeighAppend(a, b[..|b| - 1], weight);
      assert (a + b)[..|a + b| - 1] == a + b[..|b| - 1];
    }
  }

  /** What the verdicts of these alerts cost. */
  function CostOfAll(alerts: seq<Alert>, verdicts: seq<Verdict>): int {
    if alerts == [] then 0
    else
      var last := alerts[|alerts| - 1];
      CostOfAll(alerts[..|alerts| - 1], verdicts) + Weigh(Where(verdicts, Matching(OnAlert, last)), CostOf)
  }

  lemma {:induction false} PairCost(a: Alert, matches: seq<Verdict>)
    ensures Weigh(Pair(a, matches), SpendCost) == Weigh(matches, CostOf)
  {
    if matches == [] {
      assert Pair(a, matches)[..0] == [];
    } else {
      var front, last := matches[..|matches| - 1], matches[|matches| - 1];
      var row: BaseRow := (a, Some(last));
      PairCost(a, front);
      if front == [] {
        assert Pair(a, matches) == [row] && [row][..0] == [];
      } else {
        assert Pair(a, matches)[..|matches| - 1] == Pair(a, front);
      }
    }
  }

  lemma {:induction false} JoinCost(alerts: seq<Alert>, verdicts: seq<Verdict>)
    ensures Weigh(LeftJoin(alerts, verdicts, OnAlert), SpendCost) == CostOfAll(alerts, verdicts)
  {
    if alerts != [] {
      var front, last := alerts[..|alerts| - 1], alerts[|alerts| - 1];
      JoinCost(front, verdicts);
      JoinStep(alerts, verdicts, OnAlert);
      var own := Where(verdicts, Matching(OnAlert, last));
      PairCost(last, own);
      WeighAppend(LeftJoin(front, verdicts, OnAlert), Pair(last, own), SpendCost);
    }
  }

  ghost predicate HasAlert(alerts: seq<Alert>, id: int) {
    exists i :: 0 <= i < |alerts| && alerts[i].id == id
  }

  lemma HasAlertPush(front: seq<Alert>, last: Alert, id: int)
    ensures HasAlert(front + [last], id) <==> HasAlert(front, id) || last.id == id
  {
    var s := front + [last];
    if HasAlert(front, id) {
      var i :| 0 <= i < |front| && front[i].id == id;
      assert s[i].id == id;
    }
    assert s[|front|] == last;
    if HasAlert(s, id) {
      var i :| 0 <= i < |s| && s[i].id == id;
      assert i < |front| ==> front[i].id == id;
    }
  }

  ghost predicate DistinctIds(alerts: seq<Alert>) {
    forall i, j :: 0 <= i < j < |alerts| ==> alerts[i].id != alerts[j].id
  }

  lemma LastIsAlone(front: seq<Alert>, last: Alert)
    requires DistinctIds(front + [last])
    ensures DistinctIds(front) && !HasAlert(front, last.id)
  {
    var s := front + [last];
    forall i | 0 <= i < |front|
      ensures front[i].id != last.id
    {
      assert s[i].id != s[|front|].id;
    }
    forall i, j | 0 <= i < j < |front|
      ensures front[i].id != front[j].id
    {
      assert s[i].id != s[j].id;
    }
  }

  lemma CostStep(front: seq<Alert>, last: Alert, verdicts: seq<Verdict>)
    ensures CostOfAll(front + [last], verdicts)
         == CostOfAll(front, verdicts) + Weigh(Where(verdicts, Matching(OnAlert, last)), CostOf)
  {
    Halves(front, [last]);
  }

  /** One more verdict adds its cost under the one alert that has it. */
  lemma {:induction false} CostPush(alerts: seq<Alert>, verdicts: seq<Verdict>, v: Verdict)
    requires DistinctIds(alerts)
    ensures CostOfAll(alerts, verdicts + [v])
         == CostOfAll(alerts, verdicts) + if HasAlert(alerts, v.alertId) then CostOf(v) else 0
  {
    if alerts != [] {
      hide *;
      var front, last := alerts[..|alerts| - 1], alerts[|alerts| - 1];
      assert alerts == front + [last];
      LastIsAlone(front, last);
      CostPush(front, verdicts, v);
      HasAlertPush(front, last, v.alertId);
      CostStep(front, last, verdicts);
      CostStep(front, last, verdicts + [v]);
      OwnCost(last, verdicts, v);
    }
  }

  lemma OwnCost(a: Alert, verdicts: seq<Verdict>, v: Verdict)
    ensures Weigh(Where(verdicts + [v], Matching(OnAlert, a)), CostOf)
         == Weigh(Where(verdicts, Matching(OnAlert, a)), CostOf) + if a.id == v.alertId then CostOf(v) else 0
  {
    var own := Where(verdicts, Matching(OnAlert, a));
    WherePush(verdicts, v, Matching(OnAlert, a));
    WeighAppend(own, [v], CostOf);
    Empty(own);
    assert [v][..0] == [];
  }

  lemma WherePush<T(!new)>(s: seq<T>, x: T, p: T -> bool)
    ensures Where(s + [x], p) == Where(s, p) + if p(x) then [x] else []
  {
    Halves(s, [x]);
  }

  lemma {:induction false} EveryVerdictOnce(alerts: seq<Alert>, verdicts: seq<Verdict>)
    requires DistinctIds(alerts)
    requires forall v :: v in verdicts ==> HasAlert(alerts, v.alertId)
    ensures CostOfAll(alerts, verdicts) == Weigh(verdicts, CostOf)
  {
    if verdicts == [] {
      NoCost(alerts);
    } else {
      var front, last := verdicts[..|verdicts| - 1], verdicts[|verdicts| - 1];
      assert verdicts == front + [last];
      EveryVerdictOnce(alerts, front);
      CostPush(alerts, front, last);
    }
  }

  lemma {:induction false} NoCost(alerts: seq<Alert>)
    ensures CostOfAll(alerts, []) == 0
  {
    if alerts != [] {
      NoCost(alerts[..|alerts| - 1]);
    }
  }

  lemma SpendIsTheBill(db: Database)
    requires db.Sound()
    ensures Weigh(Spend(db), SpendCost) == Weigh(db.verdicts, CostOf)
  {
    JoinCost(db.alerts, db.verdicts);
    forall v | v in db.verdicts
      ensures HasAlert(db.alerts, v.alertId)
    {
      var a :| a in db.alerts && a.id == v.alertId;
      var i :| 0 <= i < |db.alerts| && db.alerts[i] == a;
    }
    EveryVerdictOnce(db.alerts, db.verdicts);
  }

  // ---- Every alert counts once a day. ----

  ghost predicate InJoin(a: Alert, rows: seq<BaseRow>) {
    exists i :: 0 <= i < |rows| && rows[i].0 == a
  }

  lemma InJoinAppend(a: Alert, rows: seq<BaseRow>, more: seq<BaseRow>)
    ensures InJoin(a, rows + more) <==> InJoin(a, rows) || InJoin(a, more)
  {
    var s := rows + more;
    if InJoin(a, rows) {
      var i :| 0 <= i < |rows| && rows[i].0 == a;
      assert s[i].0 == a;
    }
    if InJoin(a, more) {
      var i :| 0 <= i < |more| && more[i].0 == a;
      assert s[|rows| + i].0 == a;
    }
    if InJoin(a, s) {
      var i :| 0 <= i < |s| && s[i].0 == a;
      assert if i < |rows| then rows[i].0 == a else more[i - |rows|].0 == a;
    }
  }

  lemma PairIsOf(of: Alert, matches: seq<Verdict>, a: Alert)
    ensures InJoin(a, Pair(of, matches)) <==> a == of
  {
    assert Pair(of, matches)[0].0 == of;
  }

  lemma {:induction false} JoinKeepsLeft(alerts: seq<Alert>, verdicts: seq<Verdict>, a: Alert)
    ensures a in alerts <==> InJoin(a, LeftJoin(alerts, verdicts, OnAlert))
  {
    if alerts != [] {
      var front, last := alerts[..|alerts| - 1], alerts[|alerts| - 1];
      JoinStep(alerts, verdicts, OnAlert);
      hide LeftJoin, Where;
      var pair := Pair(last, Where(verdicts, Matching(OnAlert, last)));
      PairIsOf(last, Where(verdicts, Matching(OnAlert, last)), a);
      hide Pair, InJoin;
      JoinKeepsLeft(front, verdicts, a);
      InJoinAppend(a, LeftJoin(front, verdicts, OnAlert), pair);
      Rejoin(alerts);
    }
  }

  lemma IdsOnDay(db: Database, day: int)
    requires db.Sound()
    ensures IdsOn(Spend(db), day) == Keys(Where(db.alerts, Keyed(DayOf, day)), (a: Alert) => a.id)
  {
    var rows, alerts := Spend(db), Where(db.alerts, Keyed(DayOf, day));
    var ids := Keys(alerts, (a: Alert) => a.id);
    forall id | id in IdsOn(rows, day)
      ensures id in ids
    {
      var r :| r in rows && SpendDay(r) == day && r.0.id == id;
      var j :| 0 <= j < |rows| && rows[j] == r;
      JoinKeepsLeft(db.alerts, db.verdicts, r.0);
      assert r.0 in alerts;
      var i :| 0 <= i < |alerts| && alerts[i] == r.0;
    }
    forall id | id in ids
      ensures id in IdsOn(rows, day)
    {
      var i :| 0 <= i < |alerts| && alerts[i].id == id;
      assert alerts[i] in alerts;
      JoinKeepsLeft(db.alerts, db.verdicts, alerts[i]);
      var j :| 0 <= j < |rows| && rows[j].0 == alerts[i];
      assert rows[j] in rows;
    }
  }

  lemma DailyAlertsAreTheVolume(db: Database)
    requires db.Sound()
    ensures forall d :: Get(DistinctAlertsByDay(Spend(db)), d) == Get(Counts(db.alerts, DayOf), d)
  {
    forall d
      ensures Get(DistinctAlertsByDay(Spend(db)), d) == Get(Counts(db.alerts, DayOf), d)
    {
      DayCount(db, d);
      CountsAreRows(db.alerts, DayOf, Counts(db.alerts, DayOf));
    }
  }

  lemma DayCount(db: Database, d: int)
    requires db.Sound()
    ensures Get(DistinctAlertsByDay(Spend(db)), d) == |Where(db.alerts, Keyed(DayOf, d))|
  {
    var alerts := Where(db.alerts, Keyed(DayOf, d));
    IdsOnDay(db, d);
    WhereMultiset(db.alerts, Keyed(DayOf, d));
    KeysStayDistinct(db.alerts, alerts, (a: Alert) => a.id);
    DistinctKeysCount(alerts, (a: Alert) => a.id);
    hide Spend, Where, Keys;
    if d !in DistinctAlertsByDay(Spend(db)) {
      assert IdsOn(Spend(db), d) == {};
    }
  }
}
