/** What every run of the alert lifecycle keeps, and where a terminal failed write may overwrite a
    verdict. */
module LifecycleTheorems {
  import opened Lifecycle
  import opened LifecycleSystem
  import opened Triage
  import opened Wrappers

  /** The model runs on an alert for at most one process at a time, and only while it is pending. */
  ghost predicate OneAtATime(s: System) {
    && (forall p, q :: 0 <= p < q < |s.processes| && s.processes[p].Thinking? && s.processes[q].Thinking?
          ==> s.processes[p].id != s.processes[q].id)
    && (forall p :: 0 <= p < |s.processes| && s.processes[p].Thinking?
          ==> s.processes[p].id in s.rows && s.rows[s.processes[p].id].status == Pending)
  }

  lemma LocksExclude(s: System)
    requires LocksOk(s.processes, s.locks) && ProcessesOk(s.processes, s.rows, s.nextId, s.exhausted)
    ensures OneAtATime(s)
  {
    forall p | 0 <= p < |s.processes| && s.processes[p].Thinking?
      ensures s.processes[p].id in s.locks && s.locks[s.processes[p].id] == p
      ensures s.processes[p].id in s.rows && s.rows[s.processes[p].id].status == Pending
    {
      assert ProcessOk(s.processes[p], s.rows, s.nextId, s.exhausted);
    }
  }

  /** Safety over every interleaving: a verdict for the first triage and one more for each flip at
      most, so never more than the retriage cap allows; triaged means a verdict; every queued id
      is committed; one row per fingerprint; one model run per alert at a time. */
  lemma LifecycleIsSafe(limits: Limits, processes: nat, actions: seq<Action>, t: System)
    requires limits.Valid() && RunsTo(limits, Init(processes), actions, t)
    ensures forall id :: id in t.rows ==>
              && |t.rows[id].verdicts| <= t.rows[id].flips + (if t.rows[id].status == Pending then 0 else 1)
              && |t.rows[id].verdicts| <= 1 + limits.retriagePerDay * (t.today + 1)
              && (t.rows[id].status == Triaged ==> t.rows[id].verdicts != [])
    ensures t.queue <= t.rows.Keys && UniqueFingerprints(t.rows) && OneAtATime(t)
  {
    InitHolds(limits, processes);
    RunsKeepInv(limits, Init(processes), actions, t);
    LocksExclude(t);
    assert limits.retriagePerDay * (t.today + 1) == limits.retriagePerDay * t.today + limits.retriagePerDay;
    forall id | id in t.rows
      ensures |t.rows[id].verdicts| <= 1 + limits.retriagePerDay * (t.today + 1)
    {
      assert RowOk(t.rows[id]) && t.rows[id].flips <= t.flips;
    }
  }

  // ---- What a row keeps. ----

  /** A row outlives every step: its fingerprint and its verdicts stay, and a verdict is only ever
      added by turning a pending row triaged. */
  ghost predicate Grows(before: Row, after: Row) {
    && after.fingerprint == before.fingerprint && before.verdicts <= after.verdicts && before.flips <= after.flips
    && (before.status != Pending && after.flips == before.flips ==>
          after.verdicts == before.verdicts && after.status != Pending)
  }

  lemma StepGrows(limits: Limits, s: System, a: Action, id: nat)
    requires limits.Valid() && Inv(limits, s) && Enabled(s, a) && id in s.rows
    ensures id in Apply(limits, s, a).rows && Grows(s.rows[id], Apply(limits, s, a).rows[id])
  {
    hide Capped, InsertsApart, LocksOk, Stored, DecideRetry, Inserting, RowsOk, UniqueFingerprints, Known;
    if !a.Midnight? {
      assert ProcessOk(s.processes[a.p], s.rows, s.nextId, s.exhausted);
    }
  }

  /** No run removes a row, changes its fingerprint or drops a verdict; and an alert that is no
      longer pending gains no verdict, however often it is shipped again or its job runs again,
      until a retriage flips it. */
  lemma {:induction false} RowsArePermanent(limits: Limits, s: System, actions: seq<Action>, t: System, id: nat)
    requires limits.Valid() && Inv(limits, s) && RunsTo(limits, s, actions, t) && id in s.rows
    ensures id in t.rows && Grows(s.rows[id], t.rows[id])
    decreases actions
  {
    hide Inv, Apply, Enabled;
    if actions != [] {
      var next := Apply(limits, s, actions[0]);
      StepGrows(limits, s, actions[0], id);
      StepKeepsInv(limits, s, actions[0]);
      RowsArePermanent(limits, next, actions[1..], t, id);
    }
  }

  /** No process is about to flip this row. */
  ghost predicate NoRetriageOf(processes: seq<Process>, id: nat) {
    forall p :: 0 <= p < |processes| && (processes[p].Retriaging? || processes[p].Flipped?) ==> processes[p].id != id
  }

  lemma StepSetsOutAsAsked(limits: Limits, s: System, a: Action, id: nat)
    requires limits.Valid() && Enabled(s, a) && !a.Midnight? && !(a.Retriage? && a.id == id)
    requires var p := s.processes[a.p]; p.Retriaging? || p.Flipped? ==> p.id != id
    ensures var after := Apply(limits, s, a).processes[a.p]; after.Retriaging? || after.Flipped? ==> after.id != id
  {
    hide Known, Inserting, WithVerdict, Stored, DecideRetry, IdOf;
  }

  lemma StepKeepsFlips(limits: Limits, s: System, a: Action, id: nat)
    requires limits.Valid() && Enabled(s, a) && id in s.rows
    requires a.Midnight? || ProcessOk(s.processes[a.p], s.rows, s.nextId, s.exhausted)
    requires a.CommitFlip? ==> s.processes[a.p].id != id
    ensures var t := Apply(limits, s, a); id in t.rows && t.rows[id].flips == s.rows[id].flips
  {
    hide Known, Inserting, Stored, DecideRetry, IdOf;
  }

  /** Without a request for it, a step neither flips a row nor sets out to. */
  lemma StepFlipsAsAsked(limits: Limits, s: System, a: Action, id: nat)
    requires limits.Valid() && Inv(limits, s) && Enabled(s, a) && id in s.rows
    requires NoRetriageOf(s.processes, id) && !(a.Retriage? && a.id == id)
    ensures var t := Apply(limits, s, a);
      NoRetriageOf(t.processes, id) && id in t.rows && t.rows[id].flips == s.rows[id].flips
  {
    hide Apply, Capped, InsertsApart, LocksOk, Ready, RowsOk, ProcessOk, UniqueFingerprints;
    if a.Midnight? {
      MidnightMovesNone(limits, s);
    } else {
      assert ProcessOk(s.processes[a.p], s.rows, s.nextId, s.exhausted);
      if a.CommitFlip? {
        FlipIsByTheFlipped(s, a);
      }
      StepMovesOne(limits, s, a);
      StepSetsOutAsAsked(limits, s, a, id);
      StepKeepsFlips(limits, s, a, id);
    }
  }

  lemma MidnightMovesNone(limits: Limits, s: System)
    requires limits.Valid()
    ensures Apply(limits, s, Midnight).processes == s.processes && Apply(limits, s, Midnight).rows == s.rows
  {}

  lemma FlipIsByTheFlipped(s: System, a: Action)
    requires Enabled(s, a) && a.CommitFlip?
    ensures s.processes[a.p].Flipped?
  {}

  /** An alert that nobody asks to triage again is never flipped, and once it is no longer pending its verdicts
      stay as they are, whatever the other retriages do. */
  lemma {:induction false} OnlyARequestRetriages(limits: Limits, s: System, actions: seq<Action>, t: System, id: nat)
    requires limits.Valid() && Inv(limits, s) && RunsTo(limits, s, actions, t) && id in s.rows
    requires NoRetriageOf(s.processes, id) && forall a <- actions :: !(a.Retriage? && a.id == id)
    ensures id in t.rows && t.rows[id].flips == s.rows[id].flips
    ensures s.rows[id].status != Pending ==> t.rows[id].verdicts == s.rows[id].verdicts
    decreases actions
  {
    RowsArePermanent(limits, s, actions, t, id);
    if actions != [] {
      hide Inv, Apply, Enabled, NoRetriageOf;
      var next := Apply(limits, s, actions[0]);
      StepFlipsAsAsked(limits, s, actions[0], id);
      StepKeepsInv(limits, s, actions[0]);
      OnlyARequestRetriages(limits, next, actions[1..], t, id);
    }
  }

  /** A retriage of an unlocked row turns it pending and sets out to queue it if the day's cap allows one more and
      the row is not pending already; otherwise it leaves every row as it was. */
  lemma RetriageFlips(limits: Limits, s: System, p: nat, id: nat) returns (t: System)
    requires limits.Valid() && p < |s.processes| && s.processes[p].Free? && id in s.rows && Unlocked(s, id)
    ensures s.retriagesToday < limits.retriagePerDay && s.rows[id].status != Pending ==>
              && RunsTo(limits, s, [Retriage(p, id)] + ([AcquireForRetriage(p)] + [CommitFlip(p)]), t)
              && t.rows.Keys == s.rows.Keys && t.rows - {id} == s.rows - {id} && Unlocked(t, id)
              && t.rows[id].status == Pending && t.rows[id].verdicts == s.rows[id].verdicts
              && t.rows[id].flips == s.rows[id].flips + 1 && t.processes == s.processes[p := ToEnqueue(id)]
    ensures s.retriagesToday < limits.retriagePerDay && s.rows[id].status == Pending ==>
              && RunsTo(limits, s, [Retriage(p, id)] + [AcquireForRetriage(p)], t)
              && t == s.(retriagesToday := s.retriagesToday + 1, granted := s.granted + 1)
    ensures s.retriagesToday >= limits.retriagePerDay ==>
              RunsTo(limits, s, [Retriage(p, id)], t) && t == s.(retriagesToday := s.retriagesToday + 1)
  {
    var s1 := Apply(limits, s, Retriage(p, id));
    if s.retriagesToday >= limits.retriagePerDay {
      t := s1;
      Then(limits, s, Retriage(p, id), [], t);
      return;
    }
    var s2 := Apply(limits, s1, AcquireForRetriage(p));
    if s.rows[id].status == Pending {
      t := s2;
      assert t.processes == s.processes;
      Then(limits, s1, AcquireForRetriage(p), [], t);
      Then(limits, s, Retriage(p, id), [AcquireForRetriage(p)], t);
    } else {
      t := Apply(limits, s2, CommitFlip(p));
      Then(limits, s2, CommitFlip(p), [], t);
      Then(limits, s1, AcquireForRetriage(p), [CommitFlip(p)], t);
      Then(limits, s, Retriage(p, id), [AcquireForRetriage(p)] + [CommitFlip(p)], t);
    }
  }

  /** The cap is reached: whatever the day before let through, after midnight one free process can bring as many
      retriages past it as the cap allows, cut short or not. */
  lemma MidnightRenewsTheCap(limits: Limits, s: System, p: nat, id: nat) returns (actions: seq<Action>, t: System)
    requires limits.Valid() && p < |s.processes| && s.processes[p].Free?
    ensures RunsTo(limits, s, [Midnight] + actions, t) && t.granted == s.granted + limits.retriagePerDay
    ensures t.today == s.today + 1 && t.rows == s.rows && t.processes == s.processes
  {
    var s1 := Apply(limits, s, Midnight);
    actions, t := GrantMore(limits, s1, p, id, limits.retriagePerDay);
    if actions == [] {
      Then(limits, s, Midnight, [], s1);
    } else {
      Then(limits, s, Midnight, actions, t);
    }
  }

  lemma GrantOne(limits: Limits, s: System, p: nat, id: nat) returns (t: System)
    requires limits.Valid() && p < |s.processes| && s.processes[p].Free? && s.retriagesToday < limits.retriagePerDay
    ensures RunsTo(limits, s, [Retriage(p, id)] + [Abort(p)], t)
    ensures t == s.(granted := s.granted + 1, retriagesToday := s.retriagesToday + 1)
  {
    var s1 := Apply(limits, s, Retriage(p, id));
    t := Apply(limits, s1, Abort(p));
    assert t.processes == s.processes;
    Then(limits, s1, Abort(p), [], t);
    Then(limits, s, Retriage(p, id), [Abort(p)], t);
  }

  lemma {:induction false} GrantMore(limits: Limits, s: System, p: nat, id: nat, n: nat)
    returns (actions: seq<Action>, t: System)
    requires limits.Valid() && p < |s.processes| && s.processes[p].Free?
    requires s.retriagesToday + n <= limits.retriagePerDay
    ensures RunsTo(limits, s, actions, t)
    ensures t == s.(granted := s.granted + n, retriagesToday := s.retriagesToday + n)
    decreases n
  {
    hide Apply, Enabled;
    if n == 0 {
      actions, t := [], s;
    } else {
      var s2 := GrantOne(limits, s, p, id);
      var rest;
      rest, t := GrantMore(limits, s2, p, id, n - 1);
      RunsCompose(limits, s, [Retriage(p, id)] + [Abort(p)], s2, rest, t);
      actions := [Retriage(p, id)] + [Abort(p)] + rest;
    }
  }

  /** A session shipped again while its alert is pending gets the alert's job queued, so one whose ingest died
      before it could queue it is not stranded; shipped again later, it changes nothing. */
  lemma ReshippingQueuesThePending(limits: Limits, s: System, p: nat, fp: string) returns (t: System)
    requires limits.Valid() && p < |s.processes| && s.processes[p].Free?
    requires Known(s.rows, fp) && !Inserting(s.processes, fp)
    ensures s.rows[IdOf(s.rows, fp)].status == Pending ==>
              && RunsTo(limits, s, [Ingest(p, fp)] + [Enqueue(p)], t)
              && t == s.(queue := s.queue + {IdOf(s.rows, fp)})
    ensures s.rows[IdOf(s.rows, fp)].status != Pending ==> RunsTo(limits, s, [Ingest(p, fp)], t) && t == s
  {
    t := Apply(limits, s, Ingest(p, fp));
    if s.rows[IdOf(s.rows, fp)].status == Pending {
      var s1 := t;
      t := Apply(limits, s1, Enqueue(p));
      assert t.processes == s.processes;
      Then(limits, s1, Enqueue(p), [], t);
      Then(limits, s, Ingest(p, fp), [Enqueue(p)], t);
    } else {
      assert t.processes == s.processes;
      Then(limits, s, Ingest(p, fp), [], t);
    }
  }

  /** However often a session is shipped, and whatever happens in between, its fingerprint names one
      row with one id. */
  lemma ReshippingFindsTheSameRow(limits: Limits, s: System, actions: seq<Action>, t: System, fp: string)
    requires limits.Valid() && Inv(limits, s) && RunsTo(limits, s, actions, t) && Known(s.rows, fp)
    ensures Known(t.rows, fp) && IdOf(t.rows, fp) == IdOf(s.rows, fp)
  {
    RowsArePermanent(limits, s, actions, t, IdOf(s.rows, fp));
    RunsKeepInv(limits, s, actions, t);
  }

  // ---- When an alert can fail. ----

  /** The failures that are deferred or retried. */
  predicate NeverGivesUp(limits: Limits, actions: seq<Action>) {
    forall i :: 0 <= i < |actions| && actions[i].AttemptFails?
      ==> actions[i].budget || actions[i].jobTry < limits.maxTries
  }

  /** Alerts fail only when an attempt runs out of tries for a reason other than the budget: with no
      such attempt no alert is ever failed, whatever the try count of the budget deferrals. */
  lemma DeferralsNeverFail(limits: Limits, processes: nat, actions: seq<Action>, t: System)
    requires limits.Valid() && RunsTo(limits, Init(processes), actions, t) && NeverGivesUp(limits, actions)
    ensures forall id :: id in t.rows ==> t.rows[id].status != Failed
  {
    InitHolds(limits, processes);
    RunsKeepInv(limits, Init(processes), actions, t);
    NothingExhausted(limits, Init(processes), actions, t);
  }

  lemma {:induction false} NothingExhausted(limits: Limits, s: System, actions: seq<Action>, t: System)
    requires limits.Valid() && RunsTo(limits, s, actions, t) && NeverGivesUp(limits, actions)
    ensures t.exhausted == s.exhausted
    decreases actions
  {
    if actions != [] {
      hide Known, Inserting, Stored, WithVerdict;
      var next := Apply(limits, s, actions[0]);
      assert NeverGivesUp(limits, actions[1..]);
      assert next.exhausted == s.exhausted;
      NothingExhausted(limits, next, actions[1..], t);
    }
  }

  // ---- The terminal failed write does not look at the status again. ----

  /** A failed alert has no verdict since it was last retriaged, or since it was ingested. */
  ghost predicate FailedMeansNoVerdict(rows: Rows) {
    forall id :: id in rows ==> Consistent(rows[id])
  }

  predicate Consistent(r: Row) {
    r.status == Failed ==> |r.verdicts| == r.atFlip
  }

  /** The write that a look at the status would have stopped. */
  ghost predicate OverwritesTriaged(s: System, a: Action)
    requires Enabled(s, a)
  {
    a.CommitFailed? && s.rows[s.processes[a.p].id].status == Triaged
  }

  /** A step keeps it if and only if it does not commit `failed` over `triaged`. */
  lemma FailedMeansNoVerdictUnless(limits: Limits, s: System, a: Action)
    requires limits.Valid() && Inv(limits, s) && Enabled(s, a) && FailedMeansNoVerdict(s.rows)
    ensures FailedMeansNoVerdict(Apply(limits, s, a).rows) <==> !OverwritesTriaged(s, a)
  {
    if OverwritesTriaged(s, a) {
      OverwriteBreaksIt(limits, s, a);
    } else {
      OtherStepsKeepIt(limits, s, a);
    }
  }

  lemma OverwriteBreaksIt(limits: Limits, s: System, a: Action)
    requires limits.Valid() && Inv(limits, s) && Enabled(s, a) && OverwritesTriaged(s, a)
    ensures !FailedMeansNoVerdict(Apply(limits, s, a).rows)
  {
    hide Capped, InsertsApart, LocksOk, Stored, DecideRetry, Inserting, UniqueFingerprints, Known;
    var t, p := Apply(limits, s, a), s.processes[a.p];
    assert ProcessOk(p, s.rows, s.nextId, s.exhausted);
    assert RowOk(s.rows[p.id]);
    assert p.id in t.rows && !Consistent(t.rows[p.id]);
  }

  lemma OtherStepsKeepIt(limits: Limits, s: System, a: Action)
    requires limits.Valid() && Inv(limits, s) && Enabled(s, a) && FailedMeansNoVerdict(s.rows)
    requires !OverwritesTriaged(s, a)
    ensures FailedMeansNoVerdict(Apply(limits, s, a).rows)
  {
    hide Capped, InsertsApart, LocksOk, Stored, DecideRetry, Inserting, UniqueFingerprints, Known;
    if !a.Midnight? {
      var t, p := Apply(limits, s, a), s.processes[a.p];
      assert ProcessOk(p, s.rows, s.nextId, s.exhausted);
      forall id | id in t.rows
        ensures Consistent(t.rows[id])
      {
        assert id in s.rows ==> Consistent(s.rows[id]) && RowOk(s.rows[id]);
      }
    }
  }

  /** No write along the run overwrites a triage. */
  ghost predicate Rechecked(limits: Limits, s: System, actions: seq<Action>)
    requires limits.Valid()
    decreases actions
  {
    actions != [] && Enabled(s, actions[0]) ==>
      !OverwritesTriaged(s, actions[0]) && Rechecked(limits, Apply(limits, s, actions[0]), actions[1..])
  }

  /** It holds in every state of the run. */
  ghost predicate HoldsThroughout(limits: Limits, s: System, actions: seq<Action>)
    requires limits.Valid()
    decreases actions
  {
    FailedMeansNoVerdict(s.rows)
    && (actions != [] && Enabled(s, actions[0]) ==> HoldsThroughout(limits, Apply(limits, s, actions[0]), actions[1..]))
  }

  /** A run keeps it throughout if and only if none of its terminal writes overwrites a triage. */
  lemma {:induction false} RecheckedRunsKeepIt(limits: Limits, s: System, actions: seq<Action>, t: System)
    requires limits.Valid() && Inv(limits, s) && FailedMeansNoVerdict(s.rows) && RunsTo(limits, s, actions, t)
    ensures HoldsThroughout(limits, s, actions) <==> Rechecked(limits, s, actions)
    ensures Rechecked(limits, s, actions) ==> FailedMeansNoVerdict(t.rows)
    decreases actions
  {
    hide Inv, Apply, Enabled, OverwritesTriaged, FailedMeansNoVerdict;
    if actions != [] {
      var next := Apply(limits, s, actions[0]);
      FailedMeansNoVerdictUnless(limits, s, actions[0]);
      StepKeepsInv(limits, s, actions[0]);
      if OverwritesTriaged(s, actions[0]) {
        NotThroughout(limits, next, actions[1..]);
      } else {
        RecheckedRunsKeepIt(limits, next, actions[1..], t);
      }
    }
  }

  lemma NotThroughout(limits: Limits, s: System, actions: seq<Action>)
    requires limits.Valid() && !FailedMeansNoVerdict(s.rows)
    ensures !HoldsThroughout(limits, s, actions)
  {}

  /** The last process to find out: a job that gave up waiting for the row lock on its last try reads
      the row while the other attempt still runs, and then writes `failed` over its verdict. */
  lemma FailedCanHideAVerdict(limits: Limits, o: Outcome) returns (actions: seq<Action>, t: System)
    requires limits.Valid()
    ensures RunsTo(limits, Init(2), actions, t)
    ensures 0 in t.rows && t.rows[0].status == Failed && t.rows[0].verdicts == [Stored(o)] && t.rows[0].flips == 0
  {
    var s, queued := QueuedTwice(limits);
    var m, read := GivesUpWhileTheOtherThinks(limits, s);
    var write;
    write, t := WritesOverTheVerdict(limits, m, o);
    RunsCompose(limits, Init(2), queued, s, read, m);
    RunsCompose(limits, Init(2), queued + read, m, write, t);
    actions := queued + read + write;
  }

  function Shared(row: Row, locks: map<nat, nat>, first: Process, second: Process, exhausted: set<nat>): System {
    System(map[0 := row], 1, locks, {0}, [first, second], 0, 0, exhausted, 0, 0)
  }

  const FRESH := NewRow("")

  lemma GivesUpWhileTheOtherThinks(limits: Limits, s: System) returns (t: System, actions: seq<Action>)
    requires limits.Valid() && s == Shared(FRESH, map[], Waiting(0), Waiting(0), {})
    ensures RunsTo(limits, s, actions, t) && t == Shared(FRESH, map[0 := 0], Thinking(0), Failing(0), {0})
  {
    var s1 := Apply(limits, s, Acquire(0));
    assert s1 == Shared(FRESH, map[0 := 0], Thinking(0), Waiting(0), {});
    var s2 := Apply(limits, s1, AttemptFails(1, false, limits.maxTries));
    assert s2 == Shared(FRESH, map[0 := 0], Thinking(0), GivingUp(0), {0});
    t := Apply(limits, s2, ReadToFail(1));
    hide Apply;
    Then(limits, s2, ReadToFail(1), [], t);
    Then(limits, s1, AttemptFails(1, false, limits.maxTries), [ReadToFail(1)], t);
    Then(limits, s, Acquire(0), [AttemptFails(1, false, limits.maxTries), ReadToFail(1)], t);
    actions := [Acquire(0)] + [AttemptFails(1, false, limits.maxTries), ReadToFail(1)];
  }

  lemma WritesOverTheVerdict(limits: Limits, s: System, o: Outcome) returns (actions: seq<Action>, t: System)
    requires limits.Valid() && s == Shared(FRESH, map[0 := 0], Thinking(0), Failing(0), {0})
    ensures RunsTo(limits, s, actions, t)
    ensures t == Shared(FRESH.(status := Failed, verdicts := [Stored(o)]), map[], Free, Free, {0})
  {
    var v := Stored(o);
    hide Stored;
    var s1 := Apply(limits, s, Deliver(0, o));
    assert s1 == Shared(FRESH, map[0 := 0], Persisted(0, v), Failing(0), {0});
    var s2 := Apply(limits, s1, CommitVerdict(0));
    assert FRESH.verdicts + [v] == [v];
    assert s2.processes == [Free, Failing(0)] && s2.locks == map[];
    assert s2.rows == map[0 := FRESH.(status := Triaged, verdicts := [v])];
    var s3 := Apply(limits, s2, WriteFailed(1));
    assert s3 == s2.(processes := [Free, FailWritten(0)], locks := map[0 := 1]);
    t := Apply(limits, s3, CommitFailed(1));
    assert t.processes == [Free, Free] && t.locks == map[];
    assert t.rows == map[0 := FRESH.(status := Failed, verdicts := [v])];
    hide Apply;
    Then(limits, s3, CommitFailed(1), [], t);
    Then(limits, s2, WriteFailed(1), [CommitFailed(1)], t);
    Then(limits, s1, CommitVerdict(0), [WriteFailed(1), CommitFailed(1)], t);
    Then(limits, s, Deliver(0, o), [CommitVerdict(0), WriteFailed(1), CommitFailed(1)], t);
    actions := [Deliver(0, o)] + [CommitVerdict(0), WriteFailed(1), CommitFailed(1)];
  }

  /** One alert, ingested by one process and picked up by two. */
  lemma QueuedTwice(limits: Limits) returns (s: System, actions: seq<Action>)
    requires limits.Valid()
    ensures RunsTo(limits, Init(2), actions, s)
    ensures s == Shared(FRESH, map[], Waiting(0), Waiting(0), {})
  {
    var s0 := Init(2);
    assert !Known(s0.rows, "") && !Inserting(s0.processes, "");
    var s1 := Apply(limits, s0, Ingest(0, ""));
    var s2 := Apply(limits, s1, CommitInsert(0));
    var s3 := Apply(limits, s2, Enqueue(0));
    var s4 := Apply(limits, s3, Pick(0, 0));
    s := Apply(limits, s4, Pick(1, 0));
    assert s.processes == [Waiting(0), Waiting(0)];
    Then(limits, s4, Pick(1, 0), [], s);
    Then(limits, s3, Pick(0, 0), [Pick(1, 0)], s);
    Then(limits, s2, Enqueue(0), [Pick(0, 0), Pick(1, 0)], s);
    Then(limits, s1, CommitInsert(0), [Enqueue(0), Pick(0, 0), Pick(1, 0)], s);
    Then(limits, s0, Ingest(0, ""), [CommitInsert(0), Enqueue(0), Pick(0, 0), Pick(1, 0)], s);
    actions := [Ingest(0, "")] + [CommitInsert(0), Enqueue(0), Pick(0, 0), Pick(1, 0)];
  }

  lemma Then(limits: Limits, s: System, a: Action, rest: seq<Action>, t: System)
    requires limits.Valid() && Enabled(s, a)
    requires if rest == [] then t == Apply(limits, s, a) else RunsTo(limits, Apply(limits, s, a), rest, t)
    ensures RunsTo(limits, s, [a] + rest, t)
  {
    hide Apply, Enabled;
    assert ([a] + rest)[1..] == rest;
  }

  lemma {:induction false} RunsCompose(limits: Limits, s: System, first: seq<Action>, t: System, second: seq<Action>,
                                       u: System)
    requires limits.Valid() && RunsTo(limits, s, first, t) && RunsTo(limits, t, second, u)
    ensures RunsTo(limits, s, first + second, u)
    decreases first
  {
    hide Apply, Enabled;
    if first == [] {
      assert first + second == second;
    } else {
      RunsCompose(limits, Apply(limits, s, first[0]), first[1..], t, second, u);
      assert (first + second)[1..] == first[1..] + second;
    }
  }
}
