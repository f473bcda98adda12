/** The life of an alert in a database shared by the API and the workers: deduplicated ingest, locked
    triage attempts, the terminal failed write and the retriage flip, interleaved at the points
    where one transaction can see another. */
module Lifecycle {
  import opened Conversation
  import opened Triage
  import opened Wrappers

  datatype Status = Pending | Triaged | Failed

  datatype StoredVerdict = StoredVerdict(
    verdict: Verdict, modelPrimary: string, modelFinal: string, escalated: bool, totals: Usage,
    toolCalls: seq<ToolRecord>)

  /** `flips` and `atFlip` are history: the retriages committed on the row, and how many verdicts it had
      at the last of them. */
  datatype Row = Row(fingerprint: string, status: Status, verdicts: seq<StoredVerdict>, flips: nat, atFlip: nat)

  /** A row as it is inserted. */
  function NewRow(fingerprint: string): Row { Row(fingerprint, Pending, [], 0, 0) }

  type Rows = map<nat, Row>

  function Stored(o: Outcome): StoredVerdict {
    StoredVerdict(o.verdict, if o.modelPrimary.Some? then o.modelPrimary.value else o.model, o.model, o.escalated,
                  o.totals, o.trace)
  }

  /** What is kept of an outcome: the verdict, the bill, the whole trace, and both models: the one that
      answered last, and the one asked first, which is the same unless the outcome names another. */
  ghost predicate Keeps(v: StoredVerdict, o: Outcome) {
    && v.verdict == o.verdict && v.totals == o.totals && v.toolCalls == o.trace && v.escalated == o.escalated
    && v.modelFinal == o.model
    && match o.modelPrimary case Some(m) => v.modelPrimary == m case None => v.modelPrimary == v.modelFinal
  }

  function WithVerdict(rows: Rows, id: nat, v: StoredVerdict): Rows
    requires id in rows
  {
    rows[id := rows[id].(status := Triaged, verdicts := rows[id].verdicts + [v])]
  }

  ghost predicate Known(rows: Rows, fingerprint: string) {
    exists id :: id in rows && rows[id].fingerprint == fingerprint
  }

  ghost predicate UniqueFingerprints(rows: Rows) {
    forall a, b :: a in rows && b in rows && rows[a].fingerprint == rows[b].fingerprint ==> a == b
  }

  ghost function IdOf(rows: Rows, fingerprint: string): (id: nat)
    requires Known(rows, fingerprint)
    ensures id in rows && rows[id].fingerprint == fingerprint
  {
    var id :| id in rows && rows[id].fingerprint == fingerprint;
    id
  }

  datatype IngestResult = IngestResult(id: nat, created: bool, status: Status)

  datatype StoreError = NotFound

  /** The rows as one session sees and changes them. */
  class AlertStore {
    var rows: Rows

    constructor (rows: Rows)
      ensures this.rows == rows
    {
      this.rows := rows;
    }

    /** The first insert of a fingerprint creates a pending row; a later one reports the row's
        current status and changes nothing. */
    method InsertAlert(fingerprint: string, freshId: nat) returns (r: IngestResult)
      requires UniqueFingerprints(rows) && freshId !in rows
      modifies this
      ensures UniqueFingerprints(rows) && Known(rows, fingerprint) && r.id == IdOf(rows, fingerprint)
      ensures r.status == rows[r.id].status && r.created == !Known(old(rows), fingerprint)
      ensures rows == if r.created then old(rows)[freshId := NewRow(fingerprint)] else old(rows)
    {
      if id :| id in rows && rows[id].fingerprint == fingerprint {
        return IngestResult(id, false, rows[id].status);
      }
      rows := rows[freshId := NewRow(fingerprint)];
      r := IngestResult(freshId, true, Pending);
      assert rows[freshId].fingerprint == fingerprint;
    }

    method SetAlertStatus(id: nat, status: Status) returns (r: Result<(), StoreError>)
      modifies this
      ensures r.Success? <==> id in old(rows)
      ensures rows == if r.Success? then old(rows)[id := old(rows)[id].(status := status)] else old(rows)
    {
      if id !in rows {
        return Failure(NotFound);
      }
      rows := rows[id := rows[id].(status := status)];
      r := Success(());
    }

    /** The verdict row, its tool calls in order, and the status, as one unit. */
    method PersistVerdict(id: nat, outcome: Outcome)
      requires id in rows
      modifies this
      ensures rows == WithVerdict(old(rows), id, Stored(outcome))
      ensures rows.Keys == old(rows).Keys
      ensures forall other :: other in rows && other != id ==> rows[other] == old(rows)[other]
      ensures rows[id].status == Triaged && rows[id].fingerprint == old(rows)[id].fingerprint
      ensures |rows[id].verdicts| == |old(rows)[id].verdicts| + 1 && old(rows)[id].verdicts <= rows[id].verdicts
      ensures Keeps(rows[id].verdicts[|old(rows)[id].verdicts|], outcome)
    {
      var verdict, added := Stored(outcome).(toolCalls := []), [];
      var i := 0;
      while i < |outcome.trace|
        invariant 0 <= i <= |outcome.trace| && added == outcome.trace[..i]
      {
        added := added + [outcome.trace[i]];
        i := i + 1;
      }
      assert added == outcome.trace;
      rows := rows[id := rows[id].(verdicts := rows[id].verdicts + [verdict.(toolCalls := added)])];
      var _ := SetAlertStatus(id, Triaged);
    }
  }

  // ---- Retry policy. ----

  datatype RetryError = ValueError

  datatype RetryDecision = Retry(delay: real) | GiveUp

  function BackoffSeconds(jobTry: nat, base: real, max: real): real
    requires jobTry >= 1
  {
    var delay := base * Power2(jobTry - 1);
    if delay <= max then delay else max
  }

  function Power2(n: nat): real {
    if n == 0 then 1.0 else 2.0 * Power2(n - 1)
  }

  /** The last allowed try, or one past it after a crash, gives up; every earlier one comes back. */
  function DecideRetry(jobTry: int, maxTries: int, base: real, max: real): (r: Result<RetryDecision, RetryError>)
    ensures r.Success? <==> 1 <= jobTry && 1 <= maxTries
    ensures r == Success(GiveUp) <==> 1 <= maxTries <= jobTry
    ensures r.Success? && r.value.Retry? ==> r.value.delay == BackoffSeconds(jobTry, base, max) <= max
  {
    if jobTry < 1 || maxTries < 1 then Failure(ValueError)
    else if jobTry >= maxTries then Success(GiveUp)
    else Success(Retry(BackoffSeconds(jobTry, base, max)))
  }

  /** The delays never shrink, double until they meet the cap, and stay there. */
  lemma {:induction false} BackoffGrowsToTheCap(jobTry: nat, later: nat, base: real, max: real)
    requires 1 <= jobTry <= later && base >= 0.0 && max >= 0.0
    ensures 0.0 <= BackoffSeconds(jobTry, base, max) <= BackoffSeconds(later, base, max) <= max
    ensures BackoffSeconds(jobTry, base, max) == max ==> BackoffSeconds(later, base, max) == max
    ensures BackoffSeconds(jobTry + 1, base, max) < max
        ==> BackoffSeconds(jobTry + 1, base, max) == 2.0 * BackoffSeconds(jobTry, base, max)
    ensures BackoffSeconds(1, base, max) == if base <= max then base else max
    decreases later
  {
    FirstDelay(base, max);
    hide BackoffSeconds;
    BackoffStep(jobTry, base, max);
    if jobTry < later {
      BackoffGrowsToTheCap(jobTry, later - 1, base, max);
      BackoffStep(later - 1, base, max);
    }
  }

  lemma FirstDelay(base: real, max: real)
    ensures BackoffSeconds(1, base, max) == if base <= max then base else max
  {
    assert base * Power2(0) == base;
  }

  lemma BackoffStep(jobTry: nat, base: real, max: real)
    requires jobTry >= 1 && base >= 0.0 && max >= 0.0
    ensures 0.0 <= BackoffSeconds(jobTry, base, max) <= BackoffSeconds(jobTry + 1, base, max) <= max
    ensures BackoffSeconds(jobTry, base, max) == max ==> BackoffSeconds(jobTry + 1, base, max) == max
    ensures BackoffSeconds(jobTry + 1, base, max) < max
        ==> BackoffSeconds(jobTry + 1, base, max) == 2.0 * BackoffSeconds(jobTry, base, max)
  {
    Doubling(jobTry, base);
    var delay, next := base * Power2(jobTry - 1), base * Power2(jobTry);
    assert next == 2.0 * delay && delay >= 0.0;
    hide Power2;
  }

  lemma Doubling(jobTry: nat, base: real)
    requires jobTry >= 1 && base >= 0.0
    ensures base * Power2(jobTry) == 2.0 * (base * Power2(jobTry - 1)) && base * Power2(jobTry - 1) >= 0.0
  {
    PowerIsPositive(jobTry - 1);
    TwiceTimes(base, Power2(jobTry - 1));
  }

  lemma TwiceTimes(base: real, power: real)
    ensures base * (2.0 * power) == 2.0 * (base * power)
    ensures base >= 0.0 && power >= 0.0 ==> base * power >= 0.0
  {}

  lemma {:induction false} PowerIsPositive(n: nat)
    ensures Power2(n) >= 1.0
  {
    if n > 0 {
      PowerIsPositive(n - 1);
    }
  }
}
