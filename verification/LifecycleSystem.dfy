/** Every interleaving of ingest, triage attempts, terminal failed writes and retriages over one
    database. A process is an API request or a worker's job; row locks and commits are the
    database's, and any process may be cut short anywhere, which rolls it back. */
module LifecycleSystem {
  import opened Conversation
  import opened Lifecycle
  import opened Triage
  import opened Wrappers

  datatype Process =
    | Free
    | Inserted(fingerprint: string, id: nat) // ingest: the row is inserted, not committed
    | ToEnqueue(id: nat)                     // the row is committed as pending; the job is not yet queued
    | Waiting(id: nat)                       // job: wants the row lock
    | Thinking(id: nat)                      // job: holds the lock while the model runs
    | Persisted(id: nat, verdict: StoredVerdict)
    | GivingUp(id: nat)                      // job: out of tries, its attempt rolled back
    | Failing(id: nat)                       // job: has read the row, wants to write `failed`
    | FailWritten(id: nat)
    | Retriaging(id: nat)                    // retriage: within the day's cap, wants the row lock
    | Flipped(id: nat)
  {
    predicate Locks() { Thinking? || Persisted? || FailWritten? || Flipped? }
    predicate OnRow() { !Free? && !Inserted? && !Retriaging? }
    predicate OutOfTries() { GivingUp? || Failing? || FailWritten? }
  }

  /** `exhausted`, `granted` and `flips` are history: the alerts some attempt gave up on, the
      retriages let through the cap, and the flips committed. */
  datatype System = System(
    rows: Rows, nextId: nat, locks: map<nat, nat>, queue: set<nat>, processes: seq<Process>,
    today: nat, retriagesToday: nat, exhausted: set<nat>, granted: nat, flips: nat)

  datatype Limits = Limits(maxTries: nat, retriagePerDay: nat) {
    predicate Valid() { maxTries >= 1 }
  }

  datatype Action =
    | Ingest(p: nat, fingerprint: string)
    | CommitInsert(p: nat)
    | Enqueue(p: nat)
    | Pick(p: nat, id: nat)
    | Acquire(p: nat)
    | Deliver(p: nat, outcome: Outcome)
    | CommitVerdict(p: nat)
    | AttemptFails(p: nat, budget: bool, jobTry: nat)
    | ReadToFail(p: nat)
    | WriteFailed(p: nat)
    | CommitFailed(p: nat)
    | Retriage(p: nat, id: nat)
    | AcquireForRetriage(p: nat)
    | CommitFlip(p: nat)
    | Abort(p: nat)
    | Midnight

  predicate Unlocked(s: System, id: nat) {
    id !in s.locks
  }

  ghost predicate Enabled(s: System, a: Action) {
    a.Midnight? || (a.p < |s.processes| && Ready(s, s.processes[a.p], a))
  }

  ghost predicate Ready(s: System, p: Process, a: Action) {
    match a
    case Ingest(_, fp) => p.Free? && !Inserting(s.processes, fp)
    case CommitInsert(_) => p.Inserted?
    case Enqueue(_) => p.ToEnqueue?
    case Pick(_, id) => p.Free? && id in s.queue
    case Acquire(_) => p.Waiting? && Unlocked(s, p.id) && p.id in s.rows
    case Deliver(_, _) => p.Thinking?
    case CommitVerdict(_) => p.Persisted? && p.id in s.rows
    case AttemptFails(_, _, jobTry) => jobTry >= 1 && (p.Waiting? || p.Thinking? || p.Persisted?)
    case ReadToFail(_) => p.GivingUp? && p.id in s.rows
    case WriteFailed(_) => p.Failing? && Unlocked(s, p.id)
    case CommitFailed(_) => p.FailWritten? && p.id in s.rows
    case Retriage(_, _) => p.Free?
    case AcquireForRetriage(_) => p.Retriaging? && Unlocked(s, p.id)
    case CommitFlip(_) => p.Flipped? && p.id in s.rows
    case Abort(_) => true
    case Midnight => true
  }

  /** An uncommitted insert makes any other insert of its fingerprint wait. */
  ghost predicate Inserting(processes: seq<Process>, fp: string) {
    exists q :: 0 <= q < |processes| && processes[q].Inserted? && processes[q].fingerprint == fp
  }

  function Become(s: System, p: nat, next: Process): System
    requires p < |s.processes|
  {
    s.(processes := s.processes[p := next])
  }

  function Lock(s: System, p: nat, id: nat): System { s.(locks := s.locks[id := p]) }

  /** The end of a transaction. */
  function Unlock(s: System, p: nat): System
    requires p < |s.processes|
  {
    if s.processes[p].Locks() then s.(locks := s.locks - {s.processes[p].id}) else s
  }

  function SetStatus(s: System, id: nat, status: Status): System
    requires id in s.rows
  {
    s.(rows := s.rows[id := s.rows[id].(status := status)])
  }

  ghost function Apply(limits: Limits, s: System, a: Action): System
    requires limits.Valid() && Enabled(s, a)
  {
    if a.Midnight? then s.(today := s.today + 1, retriagesToday := 0)
    else
      var p := s.processes[a.p];
      match a
      case Ingest(_, fp) => ApplyIngest(s, a.p, fp)
      case CommitInsert(_) =>
        Become(s.(rows := s.rows[p.id := NewRow(p.fingerprint)]), a.p, ToEnqueue(p.id))
      case Enqueue(_) => Become(s.(queue := s.queue + {p.id}), a.p, Free)
      case Pick(_, id) => Become(s, a.p, Waiting(id))
      case Acquire(_) =>
        if s.rows[p.id].status == Pending then Lock(Become(s, a.p, Thinking(p.id)), a.p, p.id)
        else Become(s, a.p, Free)
      case Deliver(_, outcome) => Become(s, a.p, Persisted(p.id, Stored(outcome)))
      case CommitVerdict(_) => Become(Unlock(s.(rows := WithVerdict(s.rows, p.id, p.verdict)), a.p), a.p, Free)
      case AttemptFails(_, budget, jobTry) => ApplyFailure(limits, s, a.p, p.id, budget, jobTry)
      case ReadToFail(_) => Become(s, a.p, if s.rows[p.id].status == Failed then Free else Failing(p.id))
      case WriteFailed(_) => Lock(Become(s, a.p, FailWritten(p.id)), a.p, p.id)
      case CommitFailed(_) => Become(Unlock(SetStatus(s, p.id, Failed), a.p), a.p, Free)
      case Retriage(_, id) => ApplyRetriage(limits, s, a.p, id)
      case AcquireForRetriage(_) =>
        if p.id in s.rows && s.rows[p.id].status != Pending then Lock(Become(s, a.p, Flipped(p.id)), a.p, p.id)
        else Become(s, a.p, Free)
      case CommitFlip(_) => ApplyFlip(s, a.p, p.id)
      case Abort(_) => Become(Unlock(s, a.p), a.p, Free)
  }

  ghost function ApplyIngest(s: System, p: nat, fp: string): System
    requires p < |s.processes|
  {
    if Known(s.rows, fp) then
      var id := IdOf(s.rows, fp);
      Become(s, p, if s.rows[id].status == Pending then ToEnqueue(id) else Free)
    else Become(s.(nextId := s.nextId + 1), p, Inserted(fp, s.nextId))
  }

  /** A spent budget defers the job whatever its try; anything else goes to the retry policy. */
  function ApplyFailure(limits: Limits, s: System, p: nat, id: nat, budget: bool, jobTry: nat): System
    requires p < |s.processes| && limits.Valid() && jobTry >= 1
  {
    var ended := Unlock(s, p);
    if !budget && DecideRetry(jobTry, limits.maxTries, 0.0, 0.0) == Success(GiveUp)
    then Become(ended.(exhausted := ended.exhausted + {id}), p, GivingUp(id))
    else Become(ended, p, Free)
  }

  /** The day's cap is counted before anything else is looked at. */
  function ApplyRetriage(limits: Limits, s: System, p: nat, id: nat): System
    requires p < |s.processes|
  {
    var counted := s.(retriagesToday := s.retriagesToday + 1);
    if counted.retriagesToday > limits.retriagePerDay then counted
    else Become(counted.(granted := s.granted + 1), p, Retriaging(id))
  }

  function ApplyFlip(s: System, p: nat, id: nat): System
    requires p < |s.processes| && id in s.rows
  {
    var row := s.rows[id].(status := Pending, flips := s.rows[id].flips + 1, atFlip := |s.rows[id].verdicts|);
    Become(Unlock(s.(rows := s.rows[id := row], flips := s.flips + 1), p), p, ToEnqueue(id))
  }

  ghost predicate RunsTo(limits: Limits, s: System, actions: seq<Action>, t: System)
    requires limits.Valid()
    decreases actions
  {
    if actions == [] then s == t
    else Enabled(s, actions[0]) && RunsTo(limits, Apply(limits, s, actions[0]), actions[1..], t)
  }

  function Init(processes: nat): System {
    System(map[], 0, map[], {}, seq(processes, i => Free), 0, 0, {}, 0, 0)
  }

  // ---- The invariant. ----

  /** What a row says of its own history. */
  predicate RowOk(r: Row) {
    && |r.verdicts| <= r.flips + (if r.status == Pending then 0 else 1)
    && r.atFlip <= |r.verdicts| <= r.atFlip + 1 && (r.status == Pending ==> |r.verdicts| == r.atFlip)
    && (r.status == Triaged ==> |r.verdicts| == r.atFlip + 1)
    && (r.status == Triaged ==> r.verdicts != [])
  }

  ghost predicate RowsOk(rows: Rows, nextId: nat, exhausted: set<nat>, flips: nat) {
    forall id :: id in rows ==>
      && id < nextId && RowOk(rows[id]) && rows[id].flips <= flips
      && (rows[id].status == Failed ==> id in exhausted)
  }

  /** What the lock a process holds, or the row it named, lets it rely on. */
  ghost predicate ProcessOk(p: Process, rows: Rows, nextId: nat, exhausted: set<nat>) {
    && (p.OnRow() ==> p.id in rows)
    && (p.Inserted? ==> p.id < nextId && p.id !in rows && !Known(rows, p.fingerprint))
    && (p.OutOfTries() ==> p.id in exhausted)
    && (p.Thinking? || p.Persisted? ==> rows[p.id].status == Pending)
    && (p.Flipped? ==> rows[p.id].status != Pending)
  }

  ghost predicate ProcessesOk(processes: seq<Process>, rows: Rows, nextId: nat, exhausted: set<nat>) {
    forall p :: 0 <= p < |processes| ==> ProcessOk(processes[p], rows, nextId, exhausted)
  }

  /** The lock table and the processes agree. */
  ghost predicate LocksOk(processes: seq<Process>, locks: map<nat, nat>) {
    && (forall id :: id in locks ==>
          locks[id] < |processes| && processes[locks[id]].Locks() && processes[locks[id]].id == id)
    && (forall p :: 0 <= p < |processes| && processes[p].Locks() ==>
          processes[p].id in locks && locks[processes[p].id] == p)
  }

  /** No two uncommitted inserts share an id or a fingerprint. */
  ghost predicate InsertsApart(processes: seq<Process>) {
    forall p, q :: 0 <= p < q < |processes| && processes[p].Inserted? && processes[q].Inserted? ==>
      processes[p].id != processes[q].id && processes[p].fingerprint != processes[q].fingerprint
  }

  /** Retriages let through the cap that have not flipped their row yet. */
  function Pledged(processes: seq<Process>): nat {
    if processes == [] then 0
    else
      var last := processes[|processes| - 1];
      Pledged(processes[..|processes| - 1]) + if last.Retriaging? || last.Flipped? then 1 else 0
  }

  ghost predicate Capped(limits: Limits, s: System) {
    && s.flips + Pledged(s.processes) <= s.granted
    && s.granted <= limits.retriagePerDay * s.today + AtMost(s.retriagesToday, limits.retriagePerDay)
  }

  function AtMost(n: nat, cap: nat): nat { if n <= cap then n else cap }

  ghost predicate Inv(limits: Limits, s: System) {
    && RowsOk(s.rows, s.nextId, s.exhausted, s.flips)
    && UniqueFingerprints(s.rows)
    && ProcessesOk(s.processes, s.rows, s.nextId, s.exhausted)
    && LocksOk(s.processes, s.locks)
    && InsertsApart(s.processes)
    && s.queue <= s.rows.Keys
    && Capped(limits, s)
  }

  lemma {:induction false} PledgedUpdate(processes: seq<Process>, i: nat, p: Process)
    requires i < |processes|
    ensures Pledged(processes[i := p])
         == Pledged(processes) - (if processes[i].Retriaging? || processes[i].Flipped? then 1 else 0)
                               + (if p.Retriaging? || p.Flipped? then 1 else 0)
  {
    var n := |processes| - 1;
    if i < n {
      PledgedUpdate(processes[..n], i, p);
      assert processes[i := p][..n] == processes[..n][i := p];
    } else {
      assert processes[i := p][..n] == processes[..n];
    }
  }

  lemma {:induction false} FreePledgeNothing(processes: seq<Process>)
    requires forall i :: 0 <= i < |processes| ==> processes[i].Free?
    ensures Pledged(processes) == 0
  {
    if processes != [] {
      FreePledgeNothing(processes[..|processes| - 1]);
    }
  }

  lemma InitHolds(limits: Limits, processes: nat)
    ensures Inv(limits, Init(processes))
  {
    FreePledgeNothing(Init(processes).processes);
  }

  // ---- Every step keeps the invariant. ----

  /** How a process that moves from one state to another leaves the lock table. */
  predicate LocksMove(locks: map<nat, nat>, p: nat, before: Process, after: Process, locks': map<nat, nat>) {
    if after.Locks() then
      if before.Locks() then after.id == before.id && locks' == locks
      else after.id !in locks && locks' == locks[after.id := p]
    else locks' == if before.Locks() then locks - {before.id} else locks
  }

  lemma StepMovesOne(limits: Limits, s: System, a: Action)
    requires limits.Valid() && Enabled(s, a) && !a.Midnight?
    ensures var t := Apply(limits, s, a); t.processes == s.processes[a.p := t.processes[a.p]]
  {
    hide Known, Inserting, WithVerdict, Stored, DecideRetry, IdOf;
  }

  lemma StepTakesLock(limits: Limits, s: System, a: Action)
    requires limits.Valid() && Enabled(s, a) && (a.Acquire? || a.WriteFailed? || a.AcquireForRetriage?)
    ensures var t := Apply(limits, s, a); LocksMove(s.locks, a.p, s.processes[a.p], t.processes[a.p], t.locks)
  {}

  lemma StepMovesLocks(limits: Limits, s: System, a: Action)
    requires limits.Valid() && Enabled(s, a) && !a.Midnight?
    ensures var t := Apply(limits, s, a); LocksMove(s.locks, a.p, s.processes[a.p], t.processes[a.p], t.locks)
  {
    if a.Acquire? || a.WriteFailed? || a.AcquireForRetriage? {
      StepTakesLock(limits, s, a);
    } else {
      hide Known, Inserting, WithVerdict, Stored, DecideRetry, IdOf;
      var t := Apply(limits, s, a);
      assert t.locks == Unlock(s, a.p).locks || t.processes[a.p].Locks() == s.processes[a.p].Locks();
      assert LocksMove(s.locks, a.p, s.processes[a.p], t.processes[a.p], t.locks);
    }
  }

  lemma MovesKeepLocks(processes: seq<Process>, p: nat, after: Process, locks: map<nat, nat>, locks': map<nat, nat>)
    requires p < |processes| && LocksOk(processes, locks) && LocksMove(locks, p, processes[p], after, locks')
    ensures LocksOk(processes[p := after], locks')
  {}

  lemma InsertsStayApart(processes: seq<Process>, p: nat, after: Process, nextId: nat)
    requires p < |processes| && InsertsApart(processes)
    requires forall q :: 0 <= q < |processes| && processes[q].Inserted? ==> processes[q].id < nextId
    requires after.Inserted?
            ==> after == processes[p] || (after.id == nextId && !Inserting(processes, after.fingerprint))
    ensures InsertsApart(processes[p := after])
  {}

  /** Only a first ingest inserts. */
  lemma StepInserts(limits: Limits, s: System, a: Action)
    requires limits.Valid() && Enabled(s, a) && !a.Midnight?
    ensures var after := Apply(limits, s, a).processes[a.p]; after.Inserted? ==>
      if a.Ingest? then after == Inserted(a.fingerprint, s.nextId) && !Inserting(s.processes, a.fingerprint)
      else after == s.processes[a.p]
  {
    hide Known, Inserting, WithVerdict, Stored, DecideRetry, IdOf;
  }

  /** Only a commit changes the rows. */
  lemma StepLeavesRows(limits: Limits, s: System, a: Action)
    requires limits.Valid() && Enabled(s, a)
    requires !a.CommitVerdict? && !a.CommitFailed? && !a.CommitFlip? && !a.CommitInsert?
    ensures var t := Apply(limits, s, a);
      && t.rows == s.rows && t.flips == s.flips && s.nextId <= t.nextId && s.exhausted <= t.exhausted
      && (t.queue == s.queue || (a.Enqueue? && t.queue == s.queue + {s.processes[a.p].id}))
  {
    hide Known, Inserting, WithVerdict, Stored, DecideRetry, IdOf;
  }

  lemma StepKeepsLocks(limits: Limits, s: System, a: Action)
    requires limits.Valid() && LocksOk(s.processes, s.locks) && Enabled(s, a)
    ensures LocksOk(Apply(limits, s, a).processes, Apply(limits, s, a).locks)
  {
    hide LocksOk, LocksMove;
    if !a.Midnight? {
      StepMovesOne(limits, s, a);
      StepMovesLocks(limits, s, a);
      hide Apply, Enabled;
      var t := Apply(limits, s, a);
      MovesKeepLocks(s.processes, a.p, t.processes[a.p], s.locks, t.locks);
    }
  }

  /** A step that leaves the rows alone, or adds to them, and moves one process to a state that is
      justified. */
  lemma OthersKeep(processes: seq<Process>, p: nat, next: Process, rows: Rows, nextId: nat, nextId': nat,
                   exhausted: set<nat>, exhausted': set<nat>)
    requires p < |processes| && ProcessesOk(processes, rows, nextId, exhausted)
    requires nextId <= nextId' && exhausted <= exhausted' && ProcessOk(next, rows, nextId', exhausted')
    ensures ProcessesOk(processes[p := next], rows, nextId', exhausted')
  {
    hide Known;
    var after := processes[p := next];
    forall q | 0 <= q < |after|
      ensures ProcessOk(after[q], rows, nextId', exhausted')
    {
      assert ProcessOk(processes[q], rows, nextId, exhausted);
    }
  }

  /** A row changes only under its lock, so no other process was relying on it. */
  lemma HolderChanges(processes: seq<Process>, p: nat, next: Process, rows: Rows, row: Row, nextId: nat,
                      exhausted: set<nat>, locks: map<nat, nat>)
    requires p < |processes| && processes[p].Locks() && LocksOk(processes, locks)
    requires ProcessesOk(processes, rows, nextId, exhausted) && processes[p].id in rows
    requires row.fingerprint == rows[processes[p].id].fingerprint
    requires next.Free? || next == ToEnqueue(processes[p].id)
    ensures ProcessesOk(processes[p := next], rows[processes[p].id := row], nextId, exhausted)
  {
    var rows' := rows[processes[p].id := row];
    forall fp
      ensures Known(rows, fp) == Known(rows', fp)
    {
      if Known(rows, fp) {
        assert IdOf(rows, fp) in rows' && rows'[IdOf(rows, fp)].fingerprint == fp;
      }
      if Known(rows', fp) {
        assert IdOf(rows', fp) in rows && rows[IdOf(rows', fp)].fingerprint == fp;
      }
    }
    hide Known;
    var after := processes[p := next];
    forall q | 0 <= q < |after|
      ensures ProcessOk(after[q], rows', nextId, exhausted)
    {
      assert ProcessOk(processes[q], rows, nextId, exhausted);
    }
  }

  lemma InsertKeepsProcesses(processes: seq<Process>, p: nat, rows: Rows, nextId: nat, exhausted: set<nat>)
    requires p < |processes| && processes[p].Inserted? && InsertsApart(processes)
    requires ProcessesOk(processes, rows, nextId, exhausted)
    ensures var id, row := processes[p].id, NewRow(processes[p].fingerprint);
      ProcessesOk(processes[p := ToEnqueue(id)], rows[id := row], nextId, exhausted)
  {
    var id, row := processes[p].id, NewRow(processes[p].fingerprint);
    assert ProcessOk(processes[p], rows, nextId, exhausted);
    var after := processes[p := ToEnqueue(id)];
    forall q | 0 <= q < |after|
      ensures ProcessOk(after[q], rows[id := row], nextId, exhausted)
    {
      assert ProcessOk(processes[q], rows, nextId, exhausted);
    }
  }

  lemma CommitKeepsProcesses(limits: Limits, s: System, a: Action)
    requires limits.Valid() && Inv(limits, s) && Enabled(s, a)
    requires a.CommitVerdict? || a.CommitFailed? || a.CommitFlip?
    ensures var t := Apply(limits, s, a); ProcessesOk(t.processes, t.rows, t.nextId, t.exhausted)
  {
    hide Capped, UniqueFingerprints, InsertsApart, LocksOk, ProcessesOk, ProcessOk, RowsOk;
    var t := Apply(limits, s, a);
    var p := s.processes[a.p];
    HolderChanges(s.processes, a.p, t.processes[a.p], s.rows, t.rows[p.id], s.nextId, s.exhausted, s.locks);
  }

  lemma StepKeepsProcesses(limits: Limits, s: System, a: Action)
    requires limits.Valid() && Inv(limits, s) && Enabled(s, a)
    ensures var t := Apply(limits, s, a); ProcessesOk(t.processes, t.rows, t.nextId, t.exhausted)
  {
    if a.CommitVerdict? || a.CommitFailed? || a.CommitFlip? {
      CommitKeepsProcesses(limits, s, a);
    } else if a.CommitInsert? {
      InsertKeepsProcesses(s.processes, a.p, s.rows, s.nextId, s.exhausted);
    } else if !a.Midnight? {
      NextIsJustified(limits, s, a);
      StepMovesOne(limits, s, a);
      StepLeavesRows(limits, s, a);
      hide Apply, Enabled, Capped, UniqueFingerprints, InsertsApart, LocksOk, ProcessesOk, ProcessOk, RowsOk;
      var t := Apply(limits, s, a);
      OthersKeep(s.processes, a.p, t.processes[a.p], s.rows, s.nextId, t.nextId, s.exhausted, t.exhausted);
    }
  }

  lemma NextIsJustified(limits: Limits, s: System, a: Action)
    requires limits.Valid() && Inv(limits, s) && Enabled(s, a)
    requires !a.CommitVerdict? && !a.CommitFailed? && !a.CommitFlip? && !a.CommitInsert? && !a.Midnight?
    ensures var t := Apply(limits, s, a); ProcessOk(t.processes[a.p], s.rows, t.nextId, t.exhausted)
  {
    hide Capped, UniqueFingerprints, InsertsApart, LocksOk, Stored, DecideRetry, Inserting;
    assert ProcessOk(s.processes[a.p], s.rows, s.nextId, s.exhausted);
  }

  lemma RowChanges(rows: Rows, id: nat, row: Row, nextId: nat, exhausted: set<nat>, flips: nat, flips': nat)
    requires RowsOk(rows, nextId, exhausted, flips) && UniqueFingerprints(rows) && flips <= flips'
    requires id < nextId && RowOk(row) && row.flips <= flips' && (row.status == Failed ==> id in exhausted)
    requires if id in rows then row.fingerprint == rows[id].fingerprint else !Known(rows, row.fingerprint)
    ensures RowsOk(rows[id := row], nextId, exhausted, flips') && UniqueFingerprints(rows[id := row])
  {}

  lemma CommitKeepsRows(limits: Limits, s: System, a: Action)
    requires limits.Valid() && Inv(limits, s) && Enabled(s, a)
    requires a.CommitVerdict? || a.CommitFailed? || a.CommitFlip? || a.CommitInsert?
    ensures var t := Apply(limits, s, a);
      && RowsOk(t.rows, t.nextId, t.exhausted, t.flips) && UniqueFingerprints(t.rows)
      && s.rows.Keys <= t.rows.Keys && t.queue == s.queue
  {
    assert ProcessOk(s.processes[a.p], s.rows, s.nextId, s.exhausted);
    var id, t := s.processes[a.p].id, Apply(limits, s, a);
    assert id in s.rows ==> RowOk(s.rows[id]);
    hide Capped, InsertsApart, LocksOk, Stored, DecideRetry, Inserting, ProcessesOk, UniqueFingerprints, Known;
    assert t.rows == s.rows[id := t.rows[id]] && RowOk(t.rows[id]);
    RowChanges(s.rows, id, t.rows[id], s.nextId, s.exhausted, s.flips, t.flips);
  }

  lemma StepKeepsRows(limits: Limits, s: System, a: Action)
    requires limits.Valid() && Inv(limits, s) && Enabled(s, a)
    ensures var t := Apply(limits, s, a);
      && RowsOk(t.rows, t.nextId, t.exhausted, t.flips) && UniqueFingerprints(t.rows)
      && s.rows.Keys <= t.rows.Keys && t.queue <= t.rows.Keys
  {
    if a.CommitVerdict? || a.CommitFailed? || a.CommitFlip? || a.CommitInsert? {
      CommitKeepsRows(limits, s, a);
    } else {
      StepLeavesRows(limits, s, a);
      if a.Enqueue? {
        assert ProcessOk(s.processes[a.p], s.rows, s.nextId, s.exhausted);
      }
    }
    hide Apply, Capped, InsertsApart, LocksOk, ProcessesOk, Known, UniqueFingerprints;
  }

  lemma StepKeepsInserts(limits: Limits, s: System, a: Action)
    requires limits.Valid() && Inv(limits, s) && Enabled(s, a)
    ensures InsertsApart(Apply(limits, s, a).processes)
  {
    hide InsertsApart, Capped, LocksOk, RowsOk, UniqueFingerprints, Inserting;
    if !a.Midnight? {
      forall q | 0 <= q < |s.processes| && s.processes[q].Inserted?
        ensures s.processes[q].id < s.nextId
      {
        assert ProcessOk(s.processes[q], s.rows, s.nextId, s.exhausted);
      }
      StepMovesOne(limits, s, a);
      StepInserts(limits, s, a);
      hide Apply, Enabled, ProcessesOk;
      InsertsStayApart(s.processes, a.p, Apply(limits, s, a).processes[a.p], s.nextId);
    }
  }

  /** What a step does to the pledges and to the retriages let through. */
  lemma StepPledges(limits: Limits, s: System, a: Action)
    requires limits.Valid() && Enabled(s, a) && !a.Midnight?
    ensures var t := Apply(limits, s, a);
      && t.today == s.today && t.flips + Pledged(t.processes) - s.flips - Pledged(s.processes) <= t.granted - s.granted
      && (if a.Retriage? then t.retriagesToday == s.retriagesToday + 1
                              && t.granted == s.granted + if t.retriagesToday <= limits.retriagePerDay then 1 else 0
          else t.retriagesToday == s.retriagesToday && t.granted == s.granted)
  {
    hide Stored, DecideRetry, Known, Inserting, WithVerdict, IdOf, Pledged;
    var t := Apply(limits, s, a);
    StepMovesOne(limits, s, a);
    PledgedUpdate(s.processes, a.p, t.processes[a.p]);
  }

  lemma StepKeepsCap(limits: Limits, s: System, a: Action)
    requires limits.Valid() && Capped(limits, s) && Enabled(s, a)
    ensures Capped(limits, Apply(limits, s, a))
  {
    if a.Midnight? {
      hide Pledged;
      assert limits.retriagePerDay * (s.today + 1) == limits.retriagePerDay * s.today + limits.retriagePerDay;
    } else {
      StepPledges(limits, s, a);
      hide Apply, Pledged, Enabled;
    }
  }

  lemma StepKeepsInv(limits: Limits, s: System, a: Action)
    requires limits.Valid() && Inv(limits, s) && Enabled(s, a)
    ensures Inv(limits, Apply(limits, s, a))
  {
    hide RowsOk, UniqueFingerprints, ProcessesOk, LocksOk, InsertsApart, Capped, Apply, Enabled;
    StepKeepsLocks(limits, s, a);
    StepKeepsProcesses(limits, s, a);
    StepKeepsRows(limits, s, a);
    StepKeepsInserts(limits, s, a);
    StepKeepsCap(limits, s, a);
  }

  lemma {:induction false} RunsKeepInv(limits: Limits, s: System, actions: seq<Action>, t: System)
    requires limits.Valid() && Inv(limits, s) && RunsTo(limits, s, actions, t)
    ensures Inv(limits, t)
    decreases actions
  {
    hide Inv, Apply, Enabled;
    if actions != [] {
      StepKeepsInv(limits, s, actions[0]);
      RunsKeepInv(limits, Apply(limits, s, actions[0]), actions[1..], t);
    }
  }
}
