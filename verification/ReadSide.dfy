/** The dashboard's queries: the paged list, one alert's detail, and the statistics, over any state of
    the three tables. */
module ReadSide {
  import opened Relational
  import opened Wrappers

  datatype Alert = Alert(id: int, receivedAt: int, status: string)

  datatype Verdict = Verdict(
    id: int, alertId: int, severity: int, category: string, escalate: bool, createdAt: int, cost: Option<int>)

  datatype ToolCall = ToolCall(id: int, verdictId: int, seqNo: int, toolName: string, country: Option<string>)

  /** Tables in whatever order their rows lie. Costs are in millionths of a dollar. */
  datatype Database = Database(alerts: seq<Alert>, verdicts: seq<Verdict>, toolCalls: seq<ToolCall>) {
    /** The keys of the schema, and traces numbered without repeats. The numbering is the pipeline's: the
        index over verdict and seq is not unique, but a run numbers its calls 0, 1, 2 and so on. */
    ghost predicate Sound() {
      && (forall i, j :: 0 <= i < j < |alerts| ==> alerts[i].id != alerts[j].id)
      && (forall u, v :: u in verdicts && v in verdicts && u.id == v.id ==> u == v)
      && (forall v :: v in verdicts ==> exists a :: a in alerts && a.id == v.alertId)
      && (forall c, d ::
            c in toolCalls && d in toolCalls && c.verdictId == d.verdictId && c.seqNo == d.seqNo ==> c == d)
    }
  }

  const GEO_TOOL_NAME := "get_ip_geo_asn"
  const DAY := 86_400_000_000

  // ---- The list. ----

  /** Newest first; the id decides between verdicts of one instant. */
  predicate Newest(a: Verdict, b: Verdict) {
    a.createdAt > b.createdAt || (a.createdAt == b.createdAt && a.id >= b.id)
  }

  predicate ByAlertNewest(a: Verdict, b: Verdict) {
    a.alertId < b.alertId || (a.alertId == b.alertId && Newest(a, b))
  }

  predicate BySeq(a: ToolCall, b: ToolCall) { a.seqNo <= b.seqNo }

  predicate ByVerdictSeq(a: ToolCall, b: ToolCall) {
    a.verdictId < b.verdictId || (a.verdictId == b.verdictId && BySeq(a, b))
  }

  function AlertOf(v: Verdict): int { v.alertId }
  function VerdictOf(c: ToolCall): int { c.verdictId }
  predicate IsGeo(c: ToolCall) { c.toolName == GEO_TOOL_NAME }

  function Latest(db: Database): seq<Verdict> {
    DistinctOn(OrderBy(db.verdicts, ByAlertNewest), AlertOf)
  }

  function Geo(db: Database): seq<ToolCall> {
    DistinctOn(OrderBy(Where(db.toolCalls, IsGeo), ByVerdictSeq), VerdictOf)
  }

  type BaseRow = (Alert, Option<Verdict>)
  type ListRow = (BaseRow, Option<ToolCall>)

  predicate OnAlert(a: Alert, v: Verdict) { v.alertId == a.id }
  predicate OnVerdict(r: BaseRow, c: ToolCall) { r.1.Some? && c.verdictId == r.1.value.id }

  datatype Filters = Filters(
    severityGte: Option<int>, category: Option<string>, escalate: Option<bool>, since: Option<int>)
  {
    /** A filter on a verdict's field shuts out the alerts that have none. */
    predicate Passes(r: BaseRow) {
      && (severityGte.Some? ==> r.1.Some? && r.1.value.severity >= severityGte.value)
      && (category.Some? ==> r.1.Some? && r.1.value.category == category.value)
      && (escalate.Some? ==> r.1.Some? && r.1.value.escalate == escalate.value)
      && (since.Some? ==> r.0.receivedAt >= since.value)
    }
  }

  function Filtered(db: Database, f: Filters): seq<BaseRow> {
    Where(Base(db), r => f.Passes(r))
  }

  /** Severity first with no verdict last, then the newest arrival, then the id. */
  predicate ListOrder(x: ListRow, y: ListRow) {
    var (a, b) := (x.0, y.0);
    if a.1.Some? && b.1.Some? && a.1.value.severity != b.1.value.severity then a.1.value.severity > b.1.value.severity
    else if a.1.Some? != b.1.Some? then a.1.Some?
    else if a.0.receivedAt != b.0.receivedAt then a.0.receivedAt > b.0.receivedAt
    else a.0.id >= b.0.id
  }

  function Ordered(db: Database, f: Filters): seq<ListRow> {
    OrderBy(Items(db, f), ListOrder)
  }

  /** Two upper-case letters, or nothing. */
  function NormalizeCountry(c: Option<string>): Option<string> {
    if c.Some? && |c.value| == 2 && 'A' <= c.value[0] <= 'Z' && 'A' <= c.value[1] <= 'Z' then c else None
  }

  datatype Summary = Summary(alert: Alert, verdict: Option<Verdict>, country: Option<string>)

  function Summarize(r: ListRow): Summary {
    Summary(r.0.0, r.0.1, NormalizeCountry(if r.1.Some? then r.1.value.country else None))
  }

  function Page<T>(s: seq<T>, page: nat, size: nat): seq<T>
    requires page >= 1
  {
    var offset := (page - 1) * size;
    if offset >= |s| then [] else if |s| - offset <= size then s[offset..] else s[offset..offset + size]
  }

  function ListAlerts(db: Database, f: Filters, page: nat, size: nat): (seq<Summary>, nat)
    requires page >= 1
  {
    var rows := Page(Ordered(db, f), page, size);
    (seq(|rows|, i requires 0 <= i < |rows| => Summarize(rows[i])), |Filtered(db, f)|)
  }

  // ---- One alert's detail. ----

  datatype Detail = Detail(alert: Alert, verdict: Option<Verdict>, toolCalls: seq<ToolCall>, country: Option<string>)

  datatype ReadError = NotFound

  function Head<T>(s: seq<T>): Option<T> { if s == [] then None else Some(s[0]) }

  function LatestOf(db: Database, alertId: int): Option<Verdict> {
    Head(OrderBy(Where(db.verdicts, Keyed(AlertOf, alertId)), Newest))
  }

  function CallsOf(db: Database, verdictId: int): seq<ToolCall> {
    OrderBy(Where(db.toolCalls, Keyed(VerdictOf, verdictId)), BySeq)
  }

  function GetDetail(db: Database, id: int): Result<Detail, ReadError> {
    match First(db.alerts, (a: Alert) => a.id == id)
    case None => Failure(NotFound)
    case Some(alert) =>
      var verdict := LatestOf(db, id);
      var calls := if verdict.Some? then CallsOf(db, verdict.value.id) else [];
      var geo := First(calls, IsGeo);
      Success(Detail(alert, verdict, calls, NormalizeCountry(if geo.Some? then geo.value.country else None)))
  }

  // ---- The latest verdict is the same either way. ----

  lemma OrdersAreTotal()
    ensures TotalOrder(Newest) && TotalOrder(ByAlertNewest) && TotalOrder(BySeq) && TotalOrder(ByVerdictSeq)
    ensures TotalOrder(ListOrder)
  {}

  lemma LatestFacts(db: Database)
    ensures Representatives(Latest(db), db.verdicts, AlertOf, ByAlertNewest)
  {
    OrdersAreTotal();
    OrderByFacts(db.verdicts, ByAlertNewest);
    var s := OrderBy(db.verdicts, ByAlertNewest);
    assert Clustered(s, AlertOf) by {
      forall i, j, k | 0 <= i < j < k < |s| && AlertOf(s[i]) == AlertOf(s[k])
        ensures AlertOf(s[j]) == AlertOf(s[k])
      {
        assert ByAlertNewest(s[i], s[j]) && ByAlertNewest(s[j], s[k]);
      }
    }
    DistinctOnFacts(s, AlertOf, ByAlertNewest);
    SameRows(Latest(db), s, db.verdicts, AlertOf, ByAlertNewest);
  }

  lemma GeoFacts(db: Database)
    ensures Representatives(Geo(db), Where(db.toolCalls, IsGeo), VerdictOf, ByVerdictSeq)
  {
    OrdersAreTotal();
    var rows := Where(db.toolCalls, IsGeo);
    OrderByFacts(rows, ByVerdictSeq);
    var s := OrderBy(rows, ByVerdictSeq);
    assert Clustered(s, VerdictOf) by {
      forall i, j, k | 0 <= i < j < k < |s| && VerdictOf(s[i]) == VerdictOf(s[k])
        ensures VerdictOf(s[j]) == VerdictOf(s[k])
      {
        assert ByVerdictSeq(s[i], s[j]) && ByVerdictSeq(s[j], s[k]);
      }
    }
    DistinctOnFacts(s, VerdictOf, ByVerdictSeq);
    SameRows(Geo(db), s, rows, VerdictOf, ByVerdictSeq);
  }

  lemma SameRows<T(!new), K>(r: seq<T>, a: seq<T>, b: seq<T>, key: T -> K, le: (T, T) -> bool)
    requires Representatives(r, a, key, le) && forall y :: y in a <==> y in b
    ensures Representatives(r, b, key, le)
  {
    forall i | 0 <= i < |r|
      ensures LeastOfKey(r[i], b, key, le)
    {
      assert LeastOfKey(r[i], a, key, le);
    }
  }

  /** Among representatives, the one of a key is the key's least row, if the key has rows. */
  lemma FindRepresentative<T(!new), K>(r: seq<T>, s: seq<T>, key: T -> K, le: (T, T) -> bool, p: T -> bool, k: K)
    requires Representatives(r, s, key, le) && forall x :: p(x) <==> key(x) == k
    ensures match First(r, p)
      case Some(x) => key(x) == k && LeastOfKey(x, s, key, le)
      case None => forall y :: y in s ==> key(y) != k
  {
    match First(r, p)
    case Some(x) =>
      var i :| 0 <= i < |r| && r[i] == x;
      assert LeastOfKey(r[i], s, key, le);
    case None =>
      forall y | y in s
        ensures key(y) != k
      {
        assert HasKey(r, key(y), key);
        var i :| 0 <= i < |r| && key(r[i]) == key(y);
        assert r[i] in r && !p(r[i]);
      }
  }

  lemma HeadIsLeast<T(!new)>(s: seq<T>, le: (T, T) -> bool)
    requires TotalOrder(le)
    ensures match Head(OrderBy(s, le)) case Some(x) => x in s && forall y :: y in s ==> le(x, y) case None => s == []
  {
    OrderByFacts(s, le);
    var sorted := OrderBy(s, le);
    hide OrderBy;
    if sorted != [] {
      assert sorted[0] in sorted;
      forall y | y in s
        ensures le(sorted[0], y)
      {
        assert y in sorted;
        var i :| 0 <= i < |sorted| && sorted[i] == y;
      }
    }
  }

  /** The list's `DISTINCT ON` and the detail's `LIMIT 1` pick the same verdict. */
  lemma LatestVerdictsAgree(db: Database, a: Alert)
    requires db.Sound()
    ensures First(Latest(db), Matching(OnAlert, a)) == LatestOf(db, a.id)
  {
    LatestFacts(db);
    OrdersAreTotal();
    FindRepresentative(Latest(db), db.verdicts, AlertOf, ByAlertNewest, Matching(OnAlert, a), a.id);
    var own := Where(db.verdicts, Keyed(AlertOf, a.id));
    HeadIsLeast(own, Newest);
    hide Latest, OrderBy, Where, First, TotalOrder, Representatives;
    var l, d := First(Latest(db), Matching(OnAlert, a)), LatestOf(db, a.id);
    if l.Some? {
      assert l.value in own;
      assert d.Some?;
      assert d.value in db.verdicts && AlertOf(d.value) == a.id;
    }
  }

  /** And the first geo call of that verdict. */
  lemma CountriesAgree(db: Database, r: BaseRow)
    requires db.Sound()
    ensures First(Geo(db), Matching(OnVerdict, r))
            == if r.1.None? then None else First(CallsOf(db, r.1.value.id), IsGeo)
  {
    if r.1.Some? {
      var id := r.1.value.id;
      GeoFacts(db);
      OrdersAreTotal();
      assert forall c :: Matching(OnVerdict, r)(c) <==> VerdictOf(c) == id;
      FindRepresentative(Geo(db), Where(db.toolCalls, IsGeo), VerdictOf, ByVerdictSeq, Matching(OnVerdict, r), id);
      var own := Where(db.toolCalls, Keyed(VerdictOf, id));
      OrderByFacts(own, BySeq);
      var calls := CallsOf(db, id);
      hide Geo, OrderBy, Where, TotalOrder, Representatives;
      var l, d := First(Geo(db), Matching(OnVerdict, r)), First(calls, IsGeo);
      if l.Some? {
        assert l.value in own && l.value in calls;
      }
      if d.Some? {
        FirstIsLeast(calls, IsGeo, BySeq);
        assert d.value in own && d.value in Where(db.toolCalls, IsGeo);
      }
      if l.Some? && d.Some? {
        assert LeastOfKey(l.value, Where(db.toolCalls, IsGeo), VerdictOf, ByVerdictSeq);
        assert l.value.seqNo == d.value.seqNo && l.value.verdictId == d.value.verdictId;
      }
      assert l == d;
    } else {
      assert First(Geo(db), Matching(OnVerdict, r)).None?;
    }
  }

  /** The latest verdict of an alert is its newest, the greater id on a tie, if it has any. */
  lemma LatestIsNewest(db: Database, alertId: int)
    ensures match LatestOf(db, alertId)
      case None => forall u :: u in db.verdicts ==> u.alertId != alertId
      case Some(v) =>
        && v in db.verdicts && v.alertId == alertId
        && forall u :: u in db.verdicts && u.alertId == alertId ==>
             u.createdAt < v.createdAt || (u.createdAt == v.createdAt && u.id <= v.id)
  {
    OrdersAreTotal();
    var own := Where(db.verdicts, Keyed(AlertOf, alertId));
    HeadIsLeast(own, Newest);
    hide OrderBy, TotalOrder;
    forall u | u in db.verdicts && u.alertId == alertId
      ensures u in own
    {
      assert AlertOf(u) == alertId;
      assert Keyed(AlertOf, alertId)(u);
    }
    var latest := LatestOf(db, alertId);
    if latest.Some? {
      var v := latest.value;
      assert v in own && Keyed(AlertOf, alertId)(v);
      forall u | u in db.verdicts && u.alertId == alertId
        ensures u.createdAt < v.createdAt || (u.createdAt == v.createdAt && u.id <= v.id)
      {
        assert u in own && Newest(v, u);
      }
    } else {
      assert own == [];
    }
  }

  /** A verdict's calls are all its calls, in trace order. */
  lemma TraceIsInOrder(db: Database, verdictId: int)
    ensures forall i, j :: 0 <= i < j < |CallsOf(db, verdictId)| ==>
              CallsOf(db, verdictId)[i].seqNo <= CallsOf(db, verdictId)[j].seqNo
    ensures forall c :: c in CallsOf(db, verdictId) <==> c in db.toolCalls && c.verdictId == verdictId
    ensures multiset(CallsOf(db, verdictId)) <= multiset(db.toolCalls)
    ensures forall c: ToolCall :: c.verdictId == verdictId ==>
              multiset(CallsOf(db, verdictId))[c] == multiset(db.toolCalls)[c]
  {
    OrdersAreTotal();
    var own := Where(db.toolCalls, Keyed(VerdictOf, verdictId));
    WhereMultiset(db.toolCalls, Keyed(VerdictOf, verdictId));
    OrderByFacts(own, BySeq);
    hide OrderBy, TotalOrder;
    forall c: ToolCall
      ensures c in own <==> c in db.toolCalls && c.verdictId == verdictId
      ensures c.verdictId == verdictId ==> multiset(own)[c] == multiset(db.toolCalls)[c]
    {
      assert Keyed(VerdictOf, verdictId)(c) <==> c.verdictId == verdictId;
    }
    var calls := CallsOf(db, verdictId);
    forall i, j | 0 <= i < j < |calls|
      ensures calls[i].seqNo <= calls[j].seqNo
    {
      assert BySeq(calls[i], calls[j]);
    }
  }

  // ---- The list is the alerts. ----

  function IdOfBase(r: BaseRow): int { r.0.id }
  function IdOfRow(r: ListRow): int { r.0.0.id }

  /** The row an alert gets. */
  function RowOf(db: Database, a: Alert): ListRow {
    var verdict := LatestOf(db, a.id);
    ((a, verdict), if verdict.None? then None else First(CallsOf(db, verdict.value.id), IsGeo))
  }

  lemma BaseRows(db: Database, i: nat)
    requires db.Sound() && i < |db.alerts|
    ensures var base := Base(db);
      |base| == |db.alerts| && base[i] == (db.alerts[i], LatestOf(db, db.alerts[i].id))
  {
    LatestFacts(db);
    assert AtMostOne(Latest(db), OnAlert) by {
      hide Latest;
      forall a, i, j | 0 <= i < j < |Latest(db)| && OnAlert(a, Latest(db)[i])
        ensures !OnAlert(a, Latest(db)[j])
      {
        assert AlertOf(Latest(db)[i]) != AlertOf(Latest(db)[j]);
      }
    }
    JoinAt(db.alerts, Latest(db), OnAlert, i);
    LatestVerdictsAgree(db, db.alerts[i]);
  }

  function Base(db: Database): seq<BaseRow> { LeftJoin(db.alerts, Latest(db), OnAlert) }

  lemma BaseFacts(db: Database)
    requires db.Sound()
    ensures DistinctKeys(Base(db), IdOfBase)
    ensures forall r :: r in Base(db) <==> r.0 in db.alerts && r.1 == LatestOf(db, r.0.id)
  {
    if db.alerts != [] {
      BaseRows(db, 0);
    }
    var base := Base(db);
    forall i | 0 <= i < |db.alerts|
      ensures base[i] == (db.alerts[i], LatestOf(db, db.alerts[i].id))
    {
      BaseRows(db, i);
    }
    assert |base| == |db.alerts|;
    hide Base, LatestOf;
    forall r
      ensures r in base <==> r.0 in db.alerts && r.1 == LatestOf(db, r.0.id)
    {
      if r.0 in db.alerts && r.1 == LatestOf(db, r.0.id) {
        var i :| 0 <= i < |db.alerts| && db.alerts[i] == r.0;
        assert base[i] == r;
      }
    }
  }

  lemma FilteredFacts(db: Database, f: Filters)
    requires db.Sound()
    ensures DistinctKeys(Filtered(db, f), IdOfBase)
    ensures forall r :: r in Filtered(db, f) <==> r.0 in db.alerts && r.1 == LatestOf(db, r.0.id) && f.Passes(r)
  {
    BaseFacts(db);
    hide Base, LatestOf;
    var passes := r => f.Passes(r);
    WhereMultiset(Base(db), passes);
    KeysStayDistinct(Base(db), Where(Base(db), passes), IdOfBase);
  }

  lemma ItemRows(db: Database, f: Filters, i: nat)
    requires db.Sound() && i < |Filtered(db, f)|
    ensures var items := Items(db, f);
      |items| == |Filtered(db, f)| && items[i] == RowOf(db, Filtered(db, f)[i].0)
      && items[i].0 == Filtered(db, f)[i]
  {
    GeoFacts(db);
    assert AtMostOne(Geo(db), OnVerdict) by {
      hide Geo;
      forall r, i, j | 0 <= i < j < |Geo(db)| && OnVerdict(r, Geo(db)[i])
        ensures !OnVerdict(r, Geo(db)[j])
      {
        assert VerdictOf(Geo(db)[i]) != VerdictOf(Geo(db)[j]);
      }
    }
    FilteredFacts(db, f);
    hide Filtered;
    var r := Filtered(db, f)[i];
    assert r in Filtered(db, f);
    JoinAt(Filtered(db, f), Geo(db), OnVerdict, i);
    CountriesAgree(db, r);
  }

  function Items(db: Database, f: Filters): seq<ListRow> { LeftJoin(Filtered(db, f), Geo(db), OnVerdict) }

  lemma ItemFacts(db: Database, f: Filters)
    requires db.Sound()
    ensures |Items(db, f)| == |Filtered(db, f)| && DistinctKeys(Items(db, f), IdOfRow)
    ensures forall r :: r in Items(db, f) <==> r.0.0 in db.alerts && r == RowOf(db, r.0.0) && f.Passes(r.0)
  {
    var rows, items := Filtered(db, f), Items(db, f);
    FilteredFacts(db, f);
    if rows != [] {
      ItemRows(db, f, 0);
    }
    forall i | 0 <= i < |rows|
      ensures items[i] == RowOf(db, rows[i].0) && items[i].0 == rows[i]
    {
      ItemRows(db, f, i);
    }
    assert |items| == |rows|;
    hide Items, Filtered, LatestOf, CallsOf, First;
    assert DistinctKeys(items, IdOfRow) by {
      forall i, j | 0 <= i < j < |items|
        ensures IdOfRow(items[i]) != IdOfRow(items[j])
      {
        assert IdOfBase(rows[i]) != IdOfBase(rows[j]);
      }
    }
    forall r
      ensures r in items <==> r.0.0 in db.alerts && r == RowOf(db, r.0.0) && f.Passes(r.0)
    {
      if r in items {
        var i :| 0 <= i < |items| && items[i] == r;
        assert rows[i] in rows;
      }
      if r.0.0 in db.alerts && r == RowOf(db, r.0.0) && f.Passes(r.0) {
        assert r.0 in rows;
        var i :| 0 <= i < |rows| && rows[i] == r.0;
        assert items[i] == r;
      }
    }
  }

  /** The ordered list holds, for every alert that passes, one row, and nothing else. A filter on a field
      of the verdict shuts out the alerts that have none. */
  lemma EachAlertOnce(db: Database, f: Filters)
    requires db.Sound()
    ensures |Ordered(db, f)| == |Filtered(db, f)| && DistinctKeys(Ordered(db, f), IdOfRow)
    ensures IsSorted(Ordered(db, f), ListOrder)
    ensures forall r :: r in Ordered(db, f) <==> r.0.0 in db.alerts && r == RowOf(db, r.0.0) && f.Passes(r.0)
    ensures forall r :: r in Ordered(db, f) <==> r.0.0 in db.alerts && r == RowOf(db, r.0.0) && Wanted(f, r.0.0, r.0.1)
  {
    OrdersAreTotal();
    ItemFacts(db, f);
    hide Items, Filtered, RowOf, OrderBy, TotalOrder;
    OrderByFacts(Items(db, f), ListOrder);
    KeysStayDistinct(Items(db, f), Ordered(db, f), IdOfRow);
    forall r: ListRow
      ensures f.Passes(r.0) <==> Wanted(f, r.0.0, r.0.1)
    {
      PassesIsWanted(f, r.0);
    }
  }

  /** The bound, where there is one, is met. */
  predicate AtLeast(bound: Option<int>, x: int) { bound == None || bound.value <= x }

  predicate Is<T(==)>(filter: Option<T>, x: T) { filter == None || filter == Some(x) }

  /** What the filters let through: an alert without a verdict only where no filter asks for one. */
  predicate Wanted(f: Filters, a: Alert, v: Option<Verdict>) {
    && AtLeast(f.since, a.receivedAt)
    && match v
       case None => f.severityGte == None && f.category == None && f.escalate == None
       case Some(v) =>
         && AtLeast(f.severityGte, v.severity)
         && Is(f.category, v.category) && Is(f.escalate, v.escalate)
  }

  lemma PassesIsWanted(f: Filters, r: BaseRow)
    ensures f.Passes(r) <==> Wanted(f, r.0, r.1)
  {}

  /** Rows with a verdict come first, the severest first; then the newest arrival, then the greater id. */
  lemma ListIsRanked(db: Database, f: Filters, i: nat, j: nat)
    requires db.Sound() && i < j < |Ordered(db, f)|
    ensures var (x, y) := (Ordered(db, f)[i].0, Ordered(db, f)[j].0);
      && (y.1.Some? ==> x.1.Some? && x.1.value.severity >= y.1.value.severity)
      && (x.1.None? || (y.1.Some? && x.1.value.severity == y.1.value.severity) ==>
            x.0.receivedAt > y.0.receivedAt || (x.0.receivedAt == y.0.receivedAt && x.0.id > y.0.id))
  {
    EachAlertOnce(db, f);
    hide Ordered, Filtered, RowOf;
    var x, y := Ordered(db, f)[i], Ordered(db, f)[j];
    assert ListOrder(x, y);
    assert IdOfRow(x) != IdOfRow(y);
  }

  /** The list and the detail tell the same story of every alert they share: the detail is found,
      under the same verdict and country. */
  lemma ListAndDetailAgree(db: Database, f: Filters, page: nat, size: nat, k: nat)
    requires db.Sound() && page >= 1 && k < |ListAlerts(db, f, page, size).0|
    ensures var s := ListAlerts(db, f, page, size).0[k];
      match GetDetail(db, s.alert.id)
      case Success(d) => d.alert == s.alert && d.verdict == s.verdict && d.country == s.country
      case Failure(_) => false
  {
    var r := ListedRow(db, f, page, size, k);
    hide ListAlerts, LatestOf, CallsOf;
    FindAlert(db, r.0.0);
  }

  /** What the detail of an alert holds: it is found if there is such an alert; its verdict is the alert's
      newest; its trace is all of that verdict's calls, each as often as it is stored, in order, and empty
      without a verdict; its country is what the first geo lookup of the trace says, if two capitals. */
  lemma DetailIsTheAlert(db: Database, id: int)
    ensures match GetDetail(db, id)
      case Failure(_) => forall a :: a in db.alerts ==> a.id != id
      case Success(d) =>
        && d.alert in db.alerts && d.alert.id == id
        && IsLatest(db, id, d.verdict)
        && (d.verdict.None? ==> d.toolCalls == [])
        && (d.verdict.Some? ==> HoldsTrace(db, d.verdict.value.id, d.toolCalls))
        && d.country == CountryIn(d.toolCalls)
  {
    var found := First(db.alerts, (a: Alert) => a.id == id);
    if found.Some? {
      LatestIsNewest(db, id);
      var v := LatestOf(db, id);
      hide LatestOf;
      if v.Some? {
        TraceIsInOrder(db, v.value.id);
        FirstCountry(CallsOf(db, v.value.id));
        hide CallsOf;
      }
    }
  }

  ghost predicate IsLatest(db: Database, alertId: int, v: Option<Verdict>) {
    match v
    case None => forall u :: u in db.verdicts ==> u.alertId != alertId
    case Some(v) =>
      && v in db.verdicts && v.alertId == alertId
      && forall u :: u in db.verdicts && u.alertId == alertId ==>
           u.createdAt < v.createdAt || (u.createdAt == v.createdAt && u.id <= v.id)
  }

  ghost predicate HoldsTrace(db: Database, verdictId: int, calls: seq<ToolCall>) {
    && (forall c :: c in calls ==> c.verdictId == verdictId)
    && (forall c: ToolCall :: c.verdictId == verdictId ==> multiset(calls)[c] == multiset(db.toolCalls)[c])
    && (forall i, j :: 0 <= i < j < |calls| ==> calls[i].seqNo <= calls[j].seqNo)
  }

  /** The country of the first geo lookup of a trace, if it is two capitals. */
  function CountryIn(calls: seq<ToolCall>): Option<string> {
    if calls == [] then None
    else if calls[0].toolName != "get_ip_geo_asn" then CountryIn(calls[1..])
    else
      match calls[0].country
      case None => None
      case Some(c) => if |c| == 2 && c[0] in CAPITALS && c[1] in CAPITALS then Some(c) else None
  }

  const CAPITALS := "ABCDEFGHIJKLMNOPQRSTUVWXYZ"

  lemma {:induction false} FirstCountry(calls: seq<ToolCall>)
    ensures var geo := First(calls, IsGeo);
      NormalizeCountry(if geo.Some? then geo.value.country else None) == CountryIn(calls)
  {
    if calls == [] {
    } else if calls[0].toolName != "get_ip_geo_asn" {
      FirstCountry(calls[1..]);
    } else if calls[0].country.Some? {
      var c := calls[0].country.value;
      if |c| == 2 {
        Capital(c[0]);
        Capital(c[1]);
      }
    }
  }

  lemma Capital(c: char)
    ensures 'A' <= c <= 'Z' <==> c in CAPITALS
  {
    if 'A' <= c <= 'Z' {
      assert CAPITALS[c as int - 'A' as int] == c;
    }
  }

  lemma ListedRow(db: Database, f: Filters, page: nat, size: nat, k: nat) returns (r: ListRow)
    requires db.Sound() && page >= 1 && k < |ListAlerts(db, f, page, size).0|
    ensures ListAlerts(db, f, page, size).0[k] == Summarize(r) && r.0.0 in db.alerts && r == RowOf(db, r.0.0)
  {
    r := Page(Ordered(db, f), page, size)[k];
    EachAlertOnce(db, f);
    hide Ordered, Filtered, RowOf, Page, Summarize;
    OnPage(Ordered(db, f), page, size, k);
  }

  lemma OnPage<T>(s: seq<T>, page: nat, size: nat, k: nat)
    requires page >= 1 && k < |Page(s, page, size)|
    ensures Page(s, page, size)[k] in s
  {}

  lemma FindAlert(db: Database, a: Alert)
    requires db.Sound() && a in db.alerts
    ensures First(db.alerts, (x: Alert) => x.id == a.id) == Some(a)
  {
    var found := First(db.alerts, (x: Alert) => x.id == a.id);
    var i :| 0 <= i < |db.alerts| && db.alerts[i] == a;
    assert found.Some?;
    var j :| 0 <= j < |db.alerts| && db.alerts[j] == found.value;
  }

  // ---- Paging. ----

  function Summaries(rows: seq<ListRow>): seq<Summary> {
    seq(|rows|, i requires 0 <= i < |rows| => Summarize(rows[i]))
  }

  /** The first `k` pages, one after the other. */
  function Pages(db: Database, f: Filters, size: nat, k: nat): seq<Summary> {
    if k == 0 then [] else Pages(db, f, size, k - 1) + ListAlerts(db, f, k, size).0
  }

  function Min(a: nat, b: nat): nat { if a <= b then a else b }

  lemma {:induction false} PagesArePrefixes(db: Database, f: Filters, size: nat, k: nat)
    ensures var s := Ordered(db, f); Pages(db, f, size, k) == Summaries(s[..Min(k * size, |s|)])
  {
    hide Ordered, Summarize;
    var s := Ordered(db, f);
    if k > 0 {
      PagesArePrefixes(db, f, size, k - 1);
      assert k * size == (k - 1) * size + size;
      NextPage(s, k, size, (k - 1) * size);
    }
  }

  lemma NextPage(s: seq<ListRow>, page: nat, size: nat, offset: nat)
    requires page >= 1 && offset == (page - 1) * size
    ensures Summaries(s[..Min(offset, |s|)]) + Summaries(Page(s, page, size)) == Summaries(s[..Min(offset + size, |s|)])
  {}

  /** Paging drops and repeats nothing: enough pages make up the whole ordered list, whose length is
      the total every page reports. */
  lemma PagesPartitionTheList(db: Database, f: Filters, size: nat, k: nat)
    requires db.Sound() && k * size >= |Ordered(db, f)|
    ensures Pages(db, f, size, k) == Summaries(Ordered(db, f))
    ensures forall page: nat :: page >= 1 ==> ListAlerts(db, f, page, size).1 == |Pages(db, f, size, k)|
  {
    PagesArePrefixes(db, f, size, k);
    EachAlertOnce(db, f);
    hide Ordered, Filtered, Summarize;
    assert Ordered(db, f)[..|Ordered(db, f)|] == Ordered(db, f);
  }
}
