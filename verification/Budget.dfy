/** The daily token breaker shared by several workers. A check reads the counter of the day its key
    was made on, a call answers later, and its tokens go to the day the record's key was made on:
    any other worker, midnight or a key's expiry may fall between any two of these steps. */
module Budget {
  const DAY: nat := 86_400_000_000 // microseconds

  /** How long a blocked job is put off. */
  function UntilNextDay(now: nat): (delay: nat)
    ensures 0 < delay <= DAY
    ensures (now + delay) / DAY == now / DAY + 1 && (now + delay) % DAY == 0
  {
    var midnight := (now / DAY + 1) * DAY;
    assert now == (now / DAY) * DAY + now % DAY;
    midnight - now
  }

  type Counters = map<nat, nat>

  function Read(counters: Counters, day: nat): nat {
    if day in counters then counters[day] else 0
  }

  /** A budget of zero is unlimited. */
  predicate Blocks(budget: nat, count: nat) {
    budget != 0 && count >= budget
  }

  function Increment(counters: Counters, day: nat, tokens: nat): Counters {
    counters[day := Read(counters, day) + tokens]
  }

  /** The counter as the worker's two functions use it. */
  class BudgetCounter {
    var counters: Counters
    var today: nat

    constructor ()
      ensures counters == map[] && today == 0
    {
      counters, today := map[], 0;
    }

    method CheckAndWouldExceed(budget: nat, wouldAddEstimate: nat) returns (exceeds: bool)
      ensures exceeds <==> budget > 0 && Read(counters, today) + wouldAddEstimate >= budget
      ensures exceeds <==> Blocks(budget, Read(counters, today) + wouldAddEstimate)
    {
      if budget == 0 {
        return false;
      }
      var count := 0;
      if today in counters {
        count := counters[today];
      }
      exceeds := count + wouldAddEstimate >= budget;
    }

    method RecordTokens(tokens: nat) returns (total: nat)
      modifies this`counters
      ensures counters == Increment(old(counters), today, tokens)
      ensures total == Read(counters, today)
    {
      var count := 0;
      if today in counters {
        count := counters[today];
      }
      total := count + tokens;
      counters := counters[today := total];
    }
  }

  // ---- The step system. ----

  datatype Worker =
    | Idle
    | Checking(day: nat)                 // holds the key it will read
    | Calling                            // its check passed
    | Recording(day: nat, tokens: nat)   // holds the key it will add to

  datatype State = State(today: nat, counters: Counters, workers: seq<Worker>, spent: nat)

  datatype Action =
    | StartCheck(w: nat)
    | FinishCheck(w: nat)
    | Answer(w: nat, tokens: nat, valid: bool) // a reply that fails validation is never recorded
    | Record(w: nat)
    | Abort(w: nat)                            // timeout, cancellation or crash
    | Midnight
    | Expire(day: nat)                         // two days after the key's last increment

  /** At most `m` tokens a call. */
  predicate Enabled(m: nat, s: State, a: Action) {
    match a
    case StartCheck(w) => w < |s.workers| && s.workers[w].Idle?
    case FinishCheck(w) => w < |s.workers| && s.workers[w].Checking?
    case Answer(w, tokens, _) => w < |s.workers| && s.workers[w].Calling? && tokens <= m
    case Record(w) => w < |s.workers| && s.workers[w].Recording?
    case Abort(w) => w < |s.workers|
    case Midnight => true
    case Expire(day) => day + 2 <= s.today
  }

  function Apply(budget: nat, m: nat, s: State, a: Action): State
    requires Enabled(m, s, a)
  {
    match a
    case StartCheck(w) => s.(workers := s.workers[w := Checking(s.today)])
    case FinishCheck(w) =>
      s.(workers := s.workers[w := if Blocks(budget, Read(s.counters, s.workers[w].day)) then Idle else Calling])
    case Answer(w, tokens, valid) =>
      s.(workers := s.workers[w := if valid then Recording(s.today, tokens) else Idle], spent := s.spent + tokens)
    case Record(w) =>
      s.(counters := Increment(s.counters, s.workers[w].day, s.workers[w].tokens), workers := s.workers[w := Idle])
    case Abort(w) => s.(workers := s.workers[w := Idle])
    case Midnight => s.(today := s.today + 1)
    case Expire(day) => s.(counters := s.counters - {day})
  }

  ghost predicate RunsTo(budget: nat, m: nat, s: State, actions: seq<Action>, t: State)
    decreases actions
  {
    if actions == [] then s == t
    else Enabled(m, s, actions[0]) && RunsTo(budget, m, Apply(budget, m, s, actions[0]), actions[1..], t)
  }

  function Init(workers: nat): State {
    State(0, map[], seq(workers, i => Idle), 0)
  }

  /** Whether a worker may still add to a day's counter. A check whose key went stale at midnight
      will not see today's counter, so it counts as if it had already passed. */
  predicate MayAdd(w: Worker, day: nat, today: nat) {
    match w
    case Idle => false
    case Checking(key) => day == today && key != today
    case Calling => day == today
    case Recording(key, _) => key == day
  }

  /** The calls whose tokens may still reach a day's counter. */
  function Owed(workers: seq<Worker>, day: nat, today: nat): nat {
    if workers == [] then 0
    else Owed(workers[..|workers| - 1], day, today) + if MayAdd(workers[|workers| - 1], day, today) then 1 else 0
  }

  /** No key is ahead of the clock, and no recording worker holds more than a call's tokens. */
  ghost predicate Sane(m: nat, s: State) {
    && (forall d :: d > s.today ==> d !in s.counters)
    && (forall i :: 0 <= i < |s.workers| ==> WorkerSane(m, s.workers[i], s.today))
  }

  predicate WorkerSane(m: nat, w: Worker, today: nat) {
    && (w.Checking? ==> w.day <= today)
    && (w.Recording? ==> w.day <= today && w.tokens <= m)
  }

  ghost predicate Inv(budget: nat, m: nat, s: State) {
    Sane(m, s) && forall d :: 0 <= d <= s.today ==> Within(budget, m, s, d)
  }

  /** What a day counts, plus a full call for each one still owed, is within the overshoot. */
  ghost predicate Within(budget: nat, m: nat, s: State, day: nat) {
    Read(s.counters, day) + m * Owed(s.workers, day, s.today) <= budget - 1 + m * |s.workers|
  }

  lemma {:induction false} OwedAtMost(workers: seq<Worker>, day: nat, today: nat)
    ensures Owed(workers, day, today) <= |workers|
  {
    if workers != [] {
      OwedAtMost(workers[..|workers| - 1], day, today);
    }
  }

  lemma {:induction false} OwedUpdate(workers: seq<Worker>, i: nat, w: Worker, day: nat, today: nat)
    requires i < |workers|
    ensures Owed(workers[i := w], day, today)
         == Owed(workers, day, today) - (if MayAdd(workers[i], day, today) then 1 else 0)
                                      + (if MayAdd(w, day, today) then 1 else 0)
  {
    var n := |workers| - 1;
    if i < n {
      OwedUpdate(workers[..n], i, w, day, today);
      assert workers[i := w][..n] == workers[..n][i := w];
    } else {
      assert workers[i := w][..n] == workers[..n];
    }
  }

  /** Midnight leaves to the day just over only the records already keyed to it. */
  lemma {:induction false} OwedAtMidnight(workers: seq<Worker>, day: nat, today: nat)
    requires day <= today
    ensures Owed(workers, day, today + 1) <= Owed(workers, day, today)
  {
    if workers != [] {
      OwedAtMidnight(workers[..|workers| - 1], day, today);
    }
  }

  lemma Scale(m: nat, a: nat, b: nat)
    requires a <= b
    ensures m * a <= m * b && (a < b ==> m * a + m <= m * b)
  {
    TimesMore(m, a, b - a);
    if a < b {
      TimesMore(m, b - a - 1, 1);
      assert m * (b - a) == m * (b - a - 1) + m;
    }
  }

  lemma TimesMore(m: nat, a: nat, k: nat)
    ensures m * (a + k) == m * a + m * k && m * k >= 0
  {}

  lemma InitHolds(budget: nat, m: nat, workers: nat)
    requires budget >= 1
    ensures Inv(budget, m, Init(workers))
  {
    OwedAtMost(Init(workers).workers, 0, 0);
    Scale(m, Owed(Init(workers).workers, 0, 0), workers);
  }

  lemma StepKeepsInv(budget: nat, m: nat, s: State, a: Action)
    requires budget >= 1 && Inv(budget, m, s) && Enabled(m, s, a)
    ensures Inv(budget, m, Apply(budget, m, s, a))
  {
    var t := Apply(budget, m, s, a);
    forall d | 0 <= d <= t.today
      ensures Within(budget, m, t, d)
    {
      if a.Midnight? {
        MidnightKeeps(budget, m, s, d);
      } else {
        assert Within(budget, m, s, d);
        if !a.Expire? {
          assert WorkerSane(m, s.workers[a.w], s.today);
          WorkerKeeps(budget, m, s, a, d);
        }
      }
    }
  }

  lemma MidnightKeeps(budget: nat, m: nat, s: State, day: nat)
    requires budget >= 1 && Inv(budget, m, s) && day <= s.today + 1
    ensures Within(budget, m, s.(today := s.today + 1), day)
  {
    var n := Owed(s.workers, day, s.today + 1);
    if day <= s.today {
      assert Within(budget, m, s, day);
      OwedAtMidnight(s.workers, day, s.today);
      Scale(m, n, Owed(s.workers, day, s.today));
    } else {
      OwedAtMost(s.workers, day, s.today + 1);
      Scale(m, n, |s.workers|);
    }
  }

  lemma WorkerKeeps(budget: nat, m: nat, s: State, a: Action, day: nat)
    requires budget >= 1 && Enabled(m, s, a) && !a.Midnight? && !a.Expire? && day <= s.today
    requires WorkerSane(m, s.workers[a.w], s.today) && Within(budget, m, s, day)
    ensures Within(budget, m, Apply(budget, m, s, a), day)
  {
    var t := Apply(budget, m, s, a);
    var before, after := Owed(s.workers, day, s.today), Owed(t.workers, day, s.today);
    OwedUpdate(s.workers, a.w, t.workers[a.w], day, s.today);
    if after > before {
      OwedAtMost(t.workers, day, s.today);
      Scale(m, after, |s.workers|);
    } else {
      Scale(m, after, before);
    }
  }

  lemma {:induction false} RunsKeepInv(budget: nat, m: nat, s: State, actions: seq<Action>, t: State)
    requires budget >= 1 && Inv(budget, m, s) && RunsTo(budget, m, s, actions, t)
    ensures Inv(budget, m, t) && |t.workers| == |s.workers|
    decreases actions
  {
    if actions != [] {
      StepKeepsInv(budget, m, s, actions[0]);
      RunsKeepInv(budget, m, Apply(budget, m, s, actions[0]), actions[1..], t);
    }
  }

  /** A counter never falls while its day is one of the last two, whatever the workers do. Once it has expired
      it reads zero, and the others are as they were. */
  lemma {:induction false} CountersLast(budget: nat, m: nat, s: State, actions: seq<Action>, t: State, day: nat)
    requires RunsTo(budget, m, s, actions, t)
    ensures day + 2 > t.today ==> Read(t.counters, day) >= Read(s.counters, day)
    ensures Enabled(m, t, Expire(day)) ==>
              forall d: nat :: Read(Apply(budget, m, t, Expire(day)).counters, d)
                               == if d == day then 0 else Read(t.counters, d)
    ensures t.today >= s.today
    decreases actions
  {
    if actions != [] {
      CountersLast(budget, m, Apply(budget, m, s, actions[0]), actions[1..], t, day);
    }
  }

  /** The calls in flight, whatever day they will be recorded on. */
  function InFlight(workers: seq<Worker>): nat {
    if workers == [] then 0
    else InFlight(workers[..|workers| - 1])
         + if workers[|workers| - 1].Calling? then 1 else 0
  }

  lemma {:induction false} InFlightIsOwed(workers: seq<Worker>, today: nat)
    ensures InFlight(workers) <= Owed(workers, today, today)
  {
    if workers != [] {
      InFlightIsOwed(workers[..|workers| - 1], today);
    }
  }

  /** The overshoot bound, for every interleaving: today's counter with every call in flight, and
      the counter of every day. */
  lemma OvershootIsBounded(budget: nat, m: nat, workers: nat, actions: seq<Action>, t: State)
    requires budget >= 1 && RunsTo(budget, m, Init(workers), actions, t)
    ensures Read(t.counters, t.today) + m * InFlight(t.workers) <= budget - 1 + workers * m
    ensures forall d: nat :: Read(t.counters, d) <= budget - 1 + workers * m
  {
    InitHolds(budget, m, workers);
    RunsKeepInv(budget, m, Init(workers), actions, t);
    assert m * |t.workers| == workers * m;
    forall d: nat
      ensures Read(t.counters, d) <= budget - 1 + workers * m
    {
      if d <= t.today {
        assert Within(budget, m, t, d);
        Scale(m, 0, Owed(t.workers, d, t.today));
      }
    }
    assert Within(budget, m, t, t.today);
    InFlightIsOwed(t.workers, t.today);
    Scale(m, InFlight(t.workers), Owed(t.workers, t.today, t.today));
  }

  // ---- Yesterday's counter, and calls made today. ----

  /** Adding today's calls in flight to a day already over can exceed the bound: one worker fills a
      day to the brim, midnight passes, and its next call is nothing to that day. */
  lemma PastDaysDoNotCountCallsInFlight() returns (actions: seq<Action>, t: State)
    ensures RunsTo(1, 1, Init(1), actions, t) && t.today == 1
    ensures Read(t.counters, 0) + 1 * InFlight(t.workers) > 1 - 1 + 1 * 1
  {
    var s0 := Init(1);
    actions := [StartCheck(0), FinishCheck(0), Answer(0, 1, true), Record(0), Midnight, StartCheck(0), FinishCheck(0)];
    var s1 := Apply(1, 1, s0, actions[0]);
    var s2 := Apply(1, 1, s1, actions[1]);
    var s3 := Apply(1, 1, s2, actions[2]);
    var s4 := Apply(1, 1, s3, actions[3]);
    var s5 := Apply(1, 1, s4, actions[4]);
    var s6 := Apply(1, 1, s5, actions[5]);
    t := Apply(1, 1, s6, actions[6]);
    OneMore(1, 1, t, [], t);
    OneMore(1, 1, s6, actions[6..], t);
    OneMore(1, 1, s5, actions[5..], t);
    OneMore(1, 1, s4, actions[4..], t);
    OneMore(1, 1, s3, actions[3..], t);
    OneMore(1, 1, s2, actions[2..], t);
    OneMore(1, 1, s1, actions[1..], t);
    assert t.workers[..0] == [] && InFlight([]) == 0;
  }

  lemma OneMore(budget: nat, m: nat, s: State, actions: seq<Action>, t: State)
    requires if actions == [] then s == t
             else Enabled(m, s, actions[0]) && RunsTo(budget, m, Apply(budget, m, s, actions[0]), actions[1..], t)
    ensures RunsTo(budget, m, s, actions, t)
  {}

  lemma {:induction false} RunsCompose(budget: nat, m: nat, s: State, first: seq<Action>, t: State,
                                       second: seq<Action>, u: State)
    requires RunsTo(budget, m, s, first, t) && RunsTo(budget, m, t, second, u)
    ensures RunsTo(budget, m, s, first + second, u)
    decreases first
  {
    if first == [] {
      assert first + second == second;
    } else {
      RunsCompose(budget, m, Apply(budget, m, s, first[0]), first[1..], t, second, u);
      assert (first + second)[1..] == first[1..] + second;
    }
  }

  // ---- The bound is reached. ----

  /** A whole call by one idle worker on a day under budget. */
  lemma OneCall(budget: nat, m: nat, s: State, w: nat, tokens: nat, valid: bool) returns (actions: seq<Action>)
    requires w < |s.workers| && s.workers[w].Idle? && tokens <= m && !Blocks(budget, Read(s.counters, s.today))
    ensures RunsTo(budget, m, s, actions,
                   s.(counters := if valid then Increment(s.counters, s.today, tokens) else s.counters,
                      spent := s.spent + tokens))
  {
    var s1 := Apply(budget, m, s, StartCheck(w));
    var s2 := Apply(budget, m, s1, FinishCheck(w));
    var s3 := Apply(budget, m, s2, Answer(w, tokens, valid));
    var last := if valid then [Record(w)] else [];
    var t := if valid then Apply(budget, m, s3, Record(w)) else s3;
    assert t.workers == s.workers;
    OneMore(budget, m, t, [], t);
    OneMore(budget, m, s3, last, t);
    OneMore(budget, m, s2, [Answer(w, tokens, valid)] + last, t);
    OneMore(budget, m, s1, [FinishCheck(w), Answer(w, tokens, valid)] + last, t);
    actions := [StartCheck(w), FinishCheck(w), Answer(w, tokens, valid)] + last;
  }

  /** One worker alone brings the day to exactly one token under budget. */
  lemma {:induction false} FillUp(budget: nat, m: nat, s: State, target: nat) returns (actions: seq<Action>, t: State)
    requires m >= 1 && 1 <= |s.workers| && s.workers[0].Idle? && Read(s.counters, s.today) <= target < budget
    ensures RunsTo(budget, m, s, actions, t)
    ensures t.workers == s.workers && t.today == s.today && Read(t.counters, s.today) == target
    decreases target - Read(s.counters, s.today)
  {
    if Read(s.counters, s.today) == target {
      actions, t := [], s;
    } else {
      var first := OneCall(budget, m, s, 0, 1, true);
      var next := s.(counters := Increment(s.counters, s.today, 1), spent := s.spent + 1);
      var rest;
      rest, t := FillUp(budget, m, next, target);
      RunsCompose(budget, m, s, first, next, rest, t);
      actions := first + rest;
    }
  }

  /** Every worker from `w` on passes its check before any of them records. */
  lemma {:induction false} AllPass(budget: nat, m: nat, s: State, w: nat) returns (actions: seq<Action>, t: State)
    requires w <= |s.workers| && !Blocks(budget, Read(s.counters, s.today))
    requires forall i :: w <= i < |s.workers| ==> s.workers[i].Idle?
    ensures RunsTo(budget, m, s, actions, t)
    ensures t.today == s.today && t.counters == s.counters && |t.workers| == |s.workers|
    ensures forall i :: 0 <= i < |s.workers| ==> t.workers[i] == if i < w then s.workers[i] else Calling
    decreases |s.workers| - w
  {
    if w == |s.workers| {
      actions, t := [], s;
    } else {
      var s1 := Apply(budget, m, s, StartCheck(w));
      var s2 := Apply(budget, m, s1, FinishCheck(w));
      var rest;
      rest, t := AllPass(budget, m, s2, w + 1);
      OneMore(budget, m, s1, [FinishCheck(w)] + rest, t);
      OneMore(budget, m, s, [StartCheck(w), FinishCheck(w)] + rest, t);
      actions := [StartCheck(w), FinishCheck(w)] + rest;
    }
  }

  /** Every worker from `w` on answers with a full call and records it. */
  lemma {:induction false} AllRecord(budget: nat, m: nat, s: State, w: nat) returns (actions: seq<Action>, t: State)
    requires w <= |s.workers| && forall i :: w <= i < |s.workers| ==> s.workers[i].Calling?
    ensures RunsTo(budget, m, s, actions, t)
    ensures t.today == s.today && Read(t.counters, s.today) == Read(s.counters, s.today) + (|s.workers| - w) * m
    decreases |s.workers| - w
  {
    if w == |s.workers| {
      actions, t := [], s;
    } else {
      var s1 := Apply(budget, m, s, Answer(w, m, true));
      var s2 := Apply(budget, m, s1, Record(w));
      var rest;
      rest, t := AllRecord(budget, m, s2, w + 1);
      OneLess(|s.workers| - w, m);
      OneMore(budget, m, s1, [Record(w)] + rest, t);
      OneMore(budget, m, s, [Answer(w, m, true), Record(w)] + rest, t);
      actions := [Answer(w, m, true), Record(w)] + rest;
    }
  }

  lemma OneLess(n: nat, m: nat)
    requires n >= 1
    ensures n * m == (n - 1) * m + m
  {}

  /** No smaller bound holds: for every budget, worker count and call size some run reaches it. */
  lemma OvershootIsReached(budget: nat, m: nat, workers: nat) returns (actions: seq<Action>, t: State)
    requires budget >= 1 && m >= 1 && workers >= 1
    ensures RunsTo(budget, m, Init(workers), actions, t)
    ensures Read(t.counters, t.today) == budget - 1 + workers * m
  {
    var fill, s1 := FillUp(budget, m, Init(workers), budget - 1);
    var pass, s2 := AllPass(budget, m, s1, 0);
    var record, s3 := AllRecord(budget, m, s2, 0);
    RunsCompose(budget, m, Init(workers), fill, s1, pass, s2);
    RunsCompose(budget, m, Init(workers), fill + pass, s2, record, s3);
    actions, t := fill + pass + record, s3;
  }

  // ---- The counter is not the bill. ----

  /** Replies that fail validation are billed but never recorded, so no counter bounds what a day
      spends: some run spends any amount and leaves every counter at zero. */
  lemma {:induction false} InvalidRepliesAreUncounted(budget: nat, m: nat, s: State, amount: nat)
    returns (actions: seq<Action>, t: State)
    requires budget >= 1 && m >= 1 && 1 <= |s.workers| && s.workers[0].Idle? && Read(s.counters, s.today) == 0
    ensures RunsTo(budget, m, s, actions, t)
    ensures t.today == s.today && t.counters == s.counters && t.spent == s.spent + amount
    decreases amount
  {
    if amount == 0 {
      actions, t := [], s;
    } else {
      var first := OneCall(budget, m, s, 0, 1, false);
      var next := s.(spent := s.spent + 1);
      var rest;
      rest, t := InvalidRepliesAreUncounted(budget, m, next, amount - 1);
      RunsCompose(budget, m, s, first, next, rest, t);
      actions := first + rest;
    }
  }

  /** A call cut short between its reply and the record spends without counting, and frees its worker. */
  lemma AbortedCallsAreUncounted(budget: nat, m: nat, s: State, w: nat, tokens: nat) returns (actions: seq<Action>)
    requires w < |s.workers| && s.workers[w].Idle? && tokens <= m && !Blocks(budget, Read(s.counters, s.today))
    ensures RunsTo(budget, m, s, actions, s.(spent := s.spent + tokens))
    ensures forall a <- actions :: !a.Answer? || a.valid
  {
    var s1 := Apply(budget, m, s, StartCheck(w));
    var s2 := Apply(budget, m, s1, FinishCheck(w));
    var s3 := Apply(budget, m, s2, Answer(w, tokens, true));
    var t := Apply(budget, m, s3, Abort(w));
    assert t.workers == s.workers;
    OneMore(budget, m, t, [], t);
    OneMore(budget, m, s3, [Abort(w)], t);
    OneMore(budget, m, s2, [Answer(w, tokens, true), Abort(w)], t);
    OneMore(budget, m, s1, [FinishCheck(w), Answer(w, tokens, true), Abort(w)], t);
    actions := [StartCheck(w), FinishCheck(w), Answer(w, tokens, true), Abort(w)];
  }

  /** What the counters hold, and what workers are still about to add. */
  function Counted(s: State): nat {
    Total(s.counters, s.today + 1) + Held(s.workers)
  }

  function Total(counters: Counters, days: nat): nat {
    if days == 0 then 0 else Total(counters, days - 1) + Read(counters, days - 1)
  }

  function Held(workers: seq<Worker>): nat {
    if workers == [] then 0
    else Held(workers[..|workers| - 1])
         + if workers[|workers| - 1].Recording? then workers[|workers| - 1].tokens else 0
  }

  /** The tokens of the replies that failed validation. */
  function Uncounted(actions: seq<Action>): nat {
    if actions == [] then 0
    else (if actions[0].Answer? && !actions[0].valid then actions[0].tokens else 0) + Uncounted(actions[1..])
  }

  /** No key expired and no worker was cut short. */
  predicate Uninterrupted(actions: seq<Action>) {
    forall i :: 0 <= i < |actions| ==> !actions[i].Expire? && !actions[i].Abort?
  }

  lemma {:induction false} TotalOfIncrement(counters: Counters, day: nat, tokens: nat, days: nat)
    ensures Total(Increment(counters, day, tokens), days) == Total(counters, days) + if day < days then tokens else 0
  {
    if days > 0 {
      TotalOfIncrement(counters, day, tokens, days - 1);
    }
  }

  lemma {:induction false} TotalOfExpired(counters: Counters, day: nat, days: nat)
    ensures Total(counters - {day}, days) <= Total(counters, days)
  {
    if days > 0 {
      TotalOfExpired(counters, day, days - 1);
    }
  }

  lemma {:induction false} HeldUpdate(workers: seq<Worker>, i: nat, w: Worker)
    requires i < |workers|
    ensures Held(workers[i := w]) == Held(workers) - (if workers[i].Recording? then workers[i].tokens else 0)
                                                   + (if w.Recording? then w.tokens else 0)
  {
    var n := |workers| - 1;
    if i < n {
      HeldUpdate(workers[..n], i, w);
      assert workers[i := w][..n] == workers[..n][i := w];
    } else {
      assert workers[i := w][..n] == workers[..n];
    }
  }

  lemma {:induction false} HeldByIdle(workers: seq<Worker>)
    requires forall i :: 0 <= i < |workers| ==> workers[i].Idle?
    ensures Held(workers) == 0
  {
    if workers != [] {
      HeldByIdle(workers[..|workers| - 1]);
    }
  }

  lemma StepCounts(budget: nat, m: nat, s: State, a: Action)
    requires budget >= 1 && Inv(budget, m, s) && Enabled(m, s, a)
    ensures var t := Apply(budget, m, s, a);
      && t.spent - s.spent >= Counted(t) - Counted(s) + Uncounted([a])
      && (Uninterrupted([a]) ==> t.spent - s.spent == Counted(t) - Counted(s) + Uncounted([a]))
  {
    var t := Apply(budget, m, s, a);
    assert Uncounted([a]) == if a.Answer? && !a.valid then a.tokens else 0 by {
      assert [a][1..] == [];
    }
    if a.Expire? {
      assert !Uninterrupted([a]) by { assert [a][0].Expire?; }
      TotalOfExpired(s.counters, a.day, s.today + 1);
    } else if !a.Midnight? {
      if a.Abort? {
        assert !Uninterrupted([a]) by { assert [a][0].Abort?; }
      }
      HeldUpdate(s.workers, a.w, t.workers[a.w]);
      if a.Record? {
        assert WorkerSane(m, s.workers[a.w], s.today);
        TotalOfIncrement(s.counters, s.workers[a.w].day, s.workers[a.w].tokens, s.today + 1);
      }
    }
  }

  lemma {:induction false} RunCounts(budget: nat, m: nat, s: State, actions: seq<Action>, t: State)
    requires budget >= 1 && Inv(budget, m, s) && RunsTo(budget, m, s, actions, t)
    ensures t.spent - s.spent >= Counted(t) - Counted(s) + Uncounted(actions)
    ensures Uninterrupted(actions) ==> t.spent - s.spent == Counted(t) - Counted(s) + Uncounted(actions)
    decreases actions
  {
    if actions != [] {
      var a := actions[0];
      StepCounts(budget, m, s, a);
      StepKeepsInv(budget, m, s, a);
      RunCounts(budget, m, Apply(budget, m, s, a), actions[1..], t);
      assert Uncounted(actions) == Uncounted([a]) + Uncounted(actions[1..]) by {
        assert [a][1..] == [];
      }
      if Uninterrupted(actions) {
        assert Uninterrupted([a]) && Uninterrupted(actions[1..]);
      }
    }
  }

  /** When the counters are the bill: over uninterrupted runs, exactly when no reply that failed
      validation had cost anything. They never exceed it. */
  lemma CountersAreTheBill(budget: nat, m: nat, workers: nat, actions: seq<Action>, t: State)
    requires budget >= 1 && RunsTo(budget, m, Init(workers), actions, t)
    ensures Counted(t) <= t.spent
    ensures Uninterrupted(actions) ==> (Counted(t) == t.spent <==> Uncounted(actions) == 0)
  {
    InitHolds(budget, m, workers);
    HeldByIdle(Init(workers).workers);
    assert Total(map[], 1) == 0;
    RunCounts(budget, m, Init(workers), actions, t);
  }
}
