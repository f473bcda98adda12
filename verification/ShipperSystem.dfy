/** The shipper as a step system: a growing log, a disk that survives crashes, and a process that
    reads, feeds, spools, commits and delivers, and may die between any two steps. */
module ShipperSystem {
  import opened Assembling
  import opened AssemblyTheorems
  import opened Lines
  import opened Redelivery
  import opened Seqs
  import opened Sessions
  import opened Spooling
  import opened Wrappers

  datatype Process =
    | Down
    | Up(
        start: nat,              // the committed offset this process started from
        offset: nat,             // the end of the lines it has read
        todo: seq<Bytes>,        // lines read and not yet fed
        inputs: seq<Input>,      // everything fed since the start
        asm: Assembly,
        put: seq<Envelope>,      // payloads spooled since the start
        unspooled: seq<Envelope>, // payloads emitted and not yet spooled
        room: bool               // a put has made room and not yet written its file
      )

  datatype System = System(
    log: Bytes,
    committed: nat, files: seq<SpoolFile>, dead: seq<SpoolFile>,
    process: Process,
    spooled: seq<SpoolFile>, accepted: seq<SpoolFile>, evicted: seq<SpoolFile>, // history
    boots: set<nat>              // the line numbers processes started at
  )

  datatype Action =
    | Append(more: Bytes)
    | Boot
    | Crash
    | Read(n: nat)
    | FeedNext(now: real)
    | FlushOpen(flush: Input)
    | MakeRoom             // a put's first effect: at the cap the oldest file is unlinked
    | PutNext(stamp: nat)  // its second: the new file is renamed into place
    | Commit
    | Deliver(reply: Reply)

  /** The lines a process at `offset` has not read. */
  function Unread(log: Bytes, offset: nat): seq<Bytes>
    requires offset <= |log|
  {
    Complete(log[offset..])
  }

  ghost predicate Enabled(s: System, a: Action) {
    match a
    case Append(_) => true
    case Boot => s.process.Down? && s.committed <= |s.log|
    case Crash => s.process.Up?
    case Read(n) =>
      && s.process.Up? && s.process.todo == [] && s.process.unspooled == []
      && s.process.offset <= |s.log| && n <= |Unread(s.log, s.process.offset)|
    case FeedNext(_) => s.process.Up? && s.process.todo != [] && s.process.unspooled == []
    case FlushOpen(flush) => s.process.Up? && s.process.todo == [] && s.process.unspooled == [] && !flush.Line?
    case MakeRoom => s.process.Up? && s.process.unspooled != [] && !s.process.room
    case PutNext(stamp) =>
      && s.process.Up? && s.process.unspooled != [] && s.process.room
      && forall f <- s.files :: f.stamp < stamp
    case Commit => s.process.Up? && s.process.todo == [] && s.process.unspooled == []
    case Deliver(_) => s.process.Up? && s.files != [] && !s.process.room
  }

  /** Feed one input to the assembler. */
  function FedWith(cfg: Config, p: Process, i: Input): Process
    requires cfg.Valid() && p.Up?
  {
    var (asm, out) := Step(cfg, p.asm, i);
    p.(inputs := p.inputs + [i], asm := asm, unspooled := p.unspooled + out)
  }

  function Apply(cfg: Config, maxFiles: nat, s: System, a: Action): System
    requires cfg.Valid() && maxFiles >= 1 && Enabled(s, a)
  {
    match a
    case Append(more) => s.(log := s.log + more)
    case Boot =>
      s.(process := Up(s.committed, s.committed, [], [], EMPTY, [], [], false),
         boots := s.boots + {|Complete(s.log[..s.committed])|})
    case Crash => s.(process := Down)
    case Read(n) =>
      var lines := Unread(s.log, s.process.offset)[..n];
      s.(process := s.process.(offset := s.process.offset + |Join(lines)|, todo := lines))
    case FeedNext(now) =>
      s.(process := FedWith(cfg, s.process.(todo := s.process.todo[1..]), Line(s.process.todo[0], now)))
    case FlushOpen(flush) => s.(process := FedWith(cfg, s.process, flush))
    case MakeRoom =>
      s.(files := if |s.files| >= maxFiles then s.files[1..] else s.files,
         evicted := s.evicted + (if |s.files| >= maxFiles then [s.files[0]] else []),
         process := s.process.(room := true))
    case PutNext(stamp) =>
      var payload := s.process.unspooled[0];
      var f := SpoolFile(stamp, payload);
      s.(files := s.files + [f], spooled := s.spooled + [f],
         process := s.process.(put := s.process.put + [payload], unspooled := s.process.unspooled[1..], room := false))
    case Commit => s.(committed := s.process.offset)
    case Deliver(reply) =>
      if Post(reply).retry then s
      else if Spooling.Accepted(reply) then s.(files := s.files[1..], accepted := s.accepted + [s.files[0]])
      else s.(files := s.files[1..], dead := s.dead + [s.files[0]])
  }

  function Init(log: Bytes): System {
    System(log, 0, [], [], Down, [], [], [], {})
  }

  /** A run: every action is taken where it is enabled. */
  ghost predicate RunsTo(cfg: Config, maxFiles: nat, s: System, actions: seq<Action>, t: System)
    requires cfg.Valid() && maxFiles >= 1
    decreases actions
  {
    if actions == [] then s == t
    else Enabled(s, actions[0]) && RunsTo(cfg, maxFiles, Apply(cfg, maxFiles, s, actions[0]), actions[1..], t)
  }

  // ---- The invariant. ----

  /** `k` is a byte offset at which a line starts. */
  ghost predicate LineStart(log: Bytes, k: nat) { k <= |log| && Partial(log[..k]) == [] }

  /** Nothing put into the spool has vanished. */
  ghost predicate Conserved(
    spooled: seq<SpoolFile>, files: seq<SpoolFile>, accepted: seq<SpoolFile>, dead: seq<SpoolFile>,
    evicted: seq<SpoolFile>)
  {
    multiset(spooled) == multiset(files) + multiset(accepted) + multiset(dead) + multiset(evicted)
  }

  /** What a live process has read, relative to where it started. */
  ghost predicate ReadInOrder(start: nat, offset: nat, read: seq<Bytes>, log: Bytes, committed: nat, boots: set<nat>) {
    && start <= committed <= offset <= |log|
    && LineStart(log, start) && LineStart(log, offset)
    && |Complete(log[..start])| in boots
    && Complete(log[start..offset]) == read
  }

  /** What a live process has emitted, and how much of it is spooled. */
  ghost predicate EmittedInOrder(
    cfg: Config, inputs: seq<Input>, asm: Assembly, put: seq<Envelope>, unspooled: seq<Envelope>,
    spooled: seq<SpoolFile>)
    requires cfg.Valid()
  {
    && Run(cfg, EMPTY, inputs) == (asm, put + unspooled)
    && |put| <= |spooled|
    && forall i :: 0 <= i < |put| ==> spooled[|spooled| - |put| + i].payload == put[i]
  }

  /** A session whose connect line is `i` and whose closed line is `j`. */
  ghost predicate Session(cfg: Config, lines: seq<Bytes>, id: string, i: nat, j: nat) {
    && ConnectsAt(cfg, lines, id, i)
    && i < j < |lines| && OfId(cfg, lines[j], id) && cfg.parse(lines[j]).value.kind.Closed?
  }

  /** The payload starts with event `e` of session `id`. */
  ghost predicate Opens(payload: Envelope, id: string, e: Event) {
    payload.sessionId == id && payload.events != [] && payload.events[0] == e
  }

  ghost predicate WasSpooled(spooled: seq<SpoolFile>, id: string, e: Event) {
    exists k :: 0 <= k < |spooled| && Opens(spooled[k].payload, id, e)
  }

  /** No process started after line `i` and at or before line `j`. */
  ghost predicate NoBootWithin(boots: set<nat>, i: nat, j: nat) {
    forall b <- boots :: !(i < b <= j)
  }

  /** Every session that lies wholly before the committed offset, and that no process started in the
      middle of, has been spooled. */
  ghost predicate NothingLost(cfg: Config, log: Bytes, committed: nat, boots: set<nat>, spooled: seq<SpoolFile>)
    requires committed <= |log|
  {
    forall id, i: nat, j: nat ::
      Session(cfg, Complete(log), id, i, j) && j < |Complete(log[..committed])| && NoBootWithin(boots, i, j)
      ==> WasSpooled(spooled, id, cfg.parse(Complete(log)[i]).value)
  }

  ghost predicate Inv(cfg: Config, s: System)
    requires cfg.Valid()
  {
    && LineStart(s.log, s.committed)
    && Fifo(s.files)
    && Conserved(s.spooled, s.files, s.accepted, s.dead, s.evicted)
    && (s.process.Up? ==>
          var p := s.process;
          && ReadInOrder(p.start, p.offset, Texts(p.inputs) + p.todo, s.log, s.committed, s.boots)
          && EmittedInOrder(cfg, p.inputs, p.asm, p.put, p.unspooled, s.spooled))
    && NothingLost(cfg, s.log, s.committed, s.boots, s.spooled)
  }

  // ---- Log arithmetic. ----

  /** The lines before and after a line start. */
  lemma LinesAround(log: Bytes, a: nat, b: nat)
    requires a <= b <= |log| && LineStart(log, a)
    ensures Complete(log[..b]) == Complete(log[..a]) + Complete(log[a..b]) && Partial(log[..b]) == Partial(log[a..b])
  {
    assert log[..b] == log[..a] + log[a..b];
    SplitAligned(log[..a], log[a..b]);
  }

  /** Appending to the log moves no line that was complete. */
  lemma AppendKeepsLines(log: Bytes, more: Bytes)
    ensures Complete(log) <= Complete(log + more)
    ensures forall a: nat, b: nat :: a <= b <= |log| ==> (log + more)[a..b] == log[a..b]
    ensures forall b: nat :: b <= |log| ==> (log + more)[..b] == log[..b]
  {
    hide Complete, Partial;
    SplitAppend(log, more);
    Slices(log, more);
  }

  lemma Slices(log: Bytes, more: Bytes)
    ensures forall a: nat, b: nat :: a <= b <= |log| ==> (log + more)[a..b] == log[a..b]
    ensures forall b: nat :: b <= |log| ==> (log + more)[..b] == log[..b]
  {}

  /** Reading the next `n` lines ends on a line start. */
  lemma ReadEndsOnLine(log: Bytes, offset: nat, n: nat)
    requires LineStart(log, offset) && n <= |Unread(log, offset)|
    ensures var lines := Unread(log, offset)[..n];
      var end := offset + |Join(lines)|;
      && end <= |log| && LineStart(log, end) && Complete(log[offset..end]) == lines
  {
    hide Complete, Partial, Join;
    var rest := log[offset..];
    var all := Complete(rest);
    var lines := all[..n];
    TakeDrop(all, n);
    JoinSplit(rest);
    JoinAppend(lines, all[n..]);
    var head := Join(lines);
    Assoc(head, Join(all[n..]), Partial(rest));
    var end := offset + |head|;
    assert log[offset..end] == rest[..|head|] == head;
    LinesAreProper(rest);
    assert Proper(lines);
    JoinIsAligned(lines);
    LinesAround(log, offset, end);
  }

  // ---- Every step keeps the invariant. ----

  lemma InitHolds(cfg: Config, log: Bytes)
    requires cfg.Valid()
    ensures Inv(cfg, Init(log)) && Init(log).log == log && Init(log).process.Down?
  {
    assert log[..0] == [];
  }

  lemma StepKeepsInv(cfg: Config, maxFiles: nat, s: System, a: Action)
    requires cfg.Valid() && maxFiles >= 1 && Inv(cfg, s) && Enabled(s, a)
    ensures Inv(cfg, Apply(cfg, maxFiles, s, a))
  {
    match a
    case Append(more) => AppendKeepsInv(cfg, maxFiles, s, more);
    case Boot => BootKeepsInv(cfg, maxFiles, s);
    case Crash =>
    case Read(n) => ReadKeepsInv(cfg, maxFiles, s, n);
    case FeedNext(now) => FeedKeepsInv(cfg, maxFiles, s, now);
    case FlushOpen(flush) => FlushKeepsInv(cfg, maxFiles, s, flush);
    case MakeRoom => RoomKeepsInv(cfg, maxFiles, s);
    case PutNext(stamp) => PutKeepsInv(cfg, maxFiles, s, stamp);
    case Commit => CommitKeepsInv(cfg, maxFiles, s);
    case Deliver(reply) => DeliverKeepsInv(cfg, maxFiles, s, reply);
  }

  lemma AppendKeepsInv(cfg: Config, maxFiles: nat, s: System, more: Bytes)
    requires cfg.Valid() && maxFiles >= 1 && Inv(cfg, s)
    ensures Inv(cfg, Apply(cfg, maxFiles, s, Append(more)))
  {
    AppendKeepsLines(s.log, more);
    AppendLosesNothing(cfg, s.log, more, s.committed, s.boots, s.spooled);
  }

  lemma AppendLosesNothing(cfg: Config, log: Bytes, more: Bytes, committed: nat, boots: set<nat>,
                           spooled: seq<SpoolFile>)
    requires LineStart(log, committed) && NothingLost(cfg, log, committed, boots, spooled)
    ensures NothingLost(cfg, log + more, committed, boots, spooled)
  {
    var before, after := Complete(log), Complete(log + more);
    AppendKeepsLines(log, more);
    LinesAround(log, committed, |log|);
    Whole(log);
    forall id, i: nat, j: nat |
      Session(cfg, after, id, i, j) && j < |Complete((log + more)[..committed])| && NoBootWithin(boots, i, j)
      ensures WasSpooled(spooled, id, cfg.parse(after[i]).value)
    {
      assert forall k :: 0 <= k < |before| ==> after[k] == before[k];
      assert Session(cfg, before, id, i, j);
    }
  }

  lemma BootKeepsInv(cfg: Config, maxFiles: nat, s: System)
    requires cfg.Valid() && maxFiles >= 1 && Inv(cfg, s) && Enabled(s, Boot)
    ensures Inv(cfg, Apply(cfg, maxFiles, s, Boot))
  {
    assert s.log[s.committed..s.committed] == [];
    var more := s.boots + {|Complete(s.log[..s.committed])|};
    assert forall i: nat, j: nat :: NoBootWithin(more, i, j) ==> NoBootWithin(s.boots, i, j);
  }

  lemma ReadKeepsInv(cfg: Config, maxFiles: nat, s: System, n: nat)
    requires cfg.Valid() && maxFiles >= 1 && Inv(cfg, s) && Enabled(s, Read(n))
    ensures Inv(cfg, Apply(cfg, maxFiles, s, Read(n)))
  {
    hide NothingLost, Conserved, EmittedInOrder, Complete, Partial, Join, Texts;
    var p := s.process;
    var lines := Unread(s.log, p.offset)[..n];
    ReadEndsOnLine(s.log, p.offset, n);
    ReadExtends(s.log, p.start, p.offset, p.offset + |Join(lines)|);
    Empty(Texts(p.inputs));
  }

  lemma ReadExtends(log: Bytes, start: nat, offset: nat, end: nat)
    requires start <= offset <= end <= |log| && LineStart(log, start) && LineStart(log, offset)
    ensures Complete(log[start..end]) == Complete(log[start..offset]) + Complete(log[offset..end])
  {
    LinesAround(log, start, offset);
    assert log[start..end] == log[start..offset] + log[offset..end];
    SplitAligned(log[start..offset], log[offset..end]);
  }

  lemma FeedKeepsInv(cfg: Config, maxFiles: nat, s: System, now: real)
    requires cfg.Valid() && maxFiles >= 1 && Inv(cfg, s) && Enabled(s, FeedNext(now))
    ensures Inv(cfg, Apply(cfg, maxFiles, s, FeedNext(now)))
  {
    hide Step, NothingLost, Conserved, ReadInOrder;
    var p := s.process;
    var i := Line(p.todo[0], now);
    TextsPush(p.inputs, i);
    RunPush(cfg, EMPTY, p.inputs, i);
    assert p.todo == [p.todo[0]] + p.todo[1..];
    Assoc(Texts(p.inputs), [p.todo[0]], p.todo[1..]);
    Assoc(p.put, p.unspooled, Step(cfg, p.asm, i).1);
  }

  lemma FlushKeepsInv(cfg: Config, maxFiles: nat, s: System, flush: Input)
    requires cfg.Valid() && maxFiles >= 1 && Inv(cfg, s) && Enabled(s, FlushOpen(flush))
    ensures Inv(cfg, Apply(cfg, maxFiles, s, FlushOpen(flush)))
  {
    hide Step, NothingLost, Conserved, ReadInOrder;
    var p := s.process;
    TextsPush(p.inputs, flush);
    RunPush(cfg, EMPTY, p.inputs, flush);
    Empty(Texts(p.inputs));
    Assoc(p.put, p.unspooled, Step(cfg, p.asm, flush).1);
  }

  /** The file the cap pushes out is accounted for before the new one is written. */
  lemma RoomKeepsInv(cfg: Config, maxFiles: nat, s: System)
    requires cfg.Valid() && maxFiles >= 1 && Inv(cfg, s) && Enabled(s, MakeRoom)
    ensures Inv(cfg, Apply(cfg, maxFiles, s, MakeRoom))
  {
    hide NothingLost, EmittedInOrder, Run, ReadInOrder;
    if |s.files| >= maxFiles {
      assert s.files == [s.files[0]] + s.files[1..];
    } else {
      Empty(s.evicted);
    }
  }

  lemma PutKeepsInv(cfg: Config, maxFiles: nat, s: System, stamp: nat)
    requires cfg.Valid() && maxFiles >= 1 && Inv(cfg, s) && Enabled(s, PutNext(stamp))
    ensures Inv(cfg, Apply(cfg, maxFiles, s, PutNext(stamp)))
  {
    hide NothingLost, Conserved, Run, ReadInOrder;
    var p := s.process;
    var f := SpoolFile(stamp, p.unspooled[0]);
    assert p.unspooled == [p.unspooled[0]] + p.unspooled[1..];
    Assoc(p.put, [p.unspooled[0]], p.unspooled[1..]);
    PutCounts(s.spooled, s.files, s.accepted, s.dead, s.evicted, f);
    SpoolingLosesNothing(cfg, s.log, s.committed, s.boots, s.spooled, f);
  }

  lemma SpoolingLosesNothing(cfg: Config, log: Bytes, committed: nat, boots: set<nat>, spooled: seq<SpoolFile>,
                             f: SpoolFile)
    requires committed <= |log| && NothingLost(cfg, log, committed, boots, spooled)
    ensures NothingLost(cfg, log, committed, boots, spooled + [f])
  {
    forall id, e | WasSpooled(spooled, id, e)
      ensures WasSpooled(spooled + [f], id, e)
    {
      var k :| 0 <= k < |spooled| && Opens(spooled[k].payload, id, e);
      assert (spooled + [f])[k] == spooled[k];
    }
  }

  lemma PutCounts(spooled: seq<SpoolFile>, files: seq<SpoolFile>, accepted: seq<SpoolFile>, dead: seq<SpoolFile>,
                  evicted: seq<SpoolFile>, f: SpoolFile)
    requires Conserved(spooled, files, accepted, dead, evicted)
    ensures Conserved(spooled + [f], files + [f], accepted, dead, evicted)
  {}

  lemma DeliverKeepsInv(cfg: Config, maxFiles: nat, s: System, reply: Reply)
    requires cfg.Valid() && maxFiles >= 1 && Inv(cfg, s) && Enabled(s, Deliver(reply))
    ensures Inv(cfg, Apply(cfg, maxFiles, s, Deliver(reply)))
  {
    hide NothingLost, ReadInOrder, EmittedInOrder, Post, Spooling.Accepted;
    assert s.files == [s.files[0]] + s.files[1..];
  }

  /** The commit step: everything up to the new offset has been fed and its payloads spooled. */
  lemma CommitKeepsInv(cfg: Config, maxFiles: nat, s: System)
    requires cfg.Valid() && maxFiles >= 1 && Inv(cfg, s) && Enabled(s, Commit)
    ensures Inv(cfg, Apply(cfg, maxFiles, s, Commit))
  {
    var t := Apply(cfg, maxFiles, s, Commit);
    var lines := Complete(s.log);
    forall id, i: nat, j: nat |
      Session(cfg, lines, id, i, j) && j < |Complete(t.log[..t.committed])| && NoBootWithin(t.boots, i, j)
      ensures WasSpooled(t.spooled, id, cfg.parse(lines[i]).value)
    {
      if j >= |Complete(s.log[..s.committed])| {
        Empty(Texts(s.process.inputs));
        FreshSessionSpooled(cfg, s, id, i, j, cfg.parse(lines[i]).value);
      }
    }
  }

  /** Where the lines a process has read sit among the lines of the log. */
  lemma ReadInLog(start: nat, offset: nat, read: seq<Bytes>, log: Bytes, committed: nat, boots: set<nat>)
    requires LineStart(log, committed) && ReadInOrder(start, offset, read, log, committed, boots)
    ensures var base := |Complete(log[..start])|;
      && base in boots && base <= |Complete(log[..committed])|
      && |Complete(log[..offset])| == base + |read| <= |Complete(log)|
      && forall k :: 0 <= k < |read| ==> Complete(log)[base + k] == read[k]
  {
    hide Complete, Partial;
    LinesAround(log, start, committed);
    LinesAround(log, start, offset);
    LinesAround(log, offset, |log|);
    Whole(log);
    Middle(Complete(log[..start]), read, Complete(log[offset..]));
  }

  lemma Whole(log: Bytes)
    ensures log[..|log|] == log
    ensures forall k: nat :: k <= |log| ==> log[k..|log|] == log[k..]
  {}

  /** A session that closed in what the live process has read was reported by that process. */
  lemma FreshSessionSpooled(cfg: Config, s: System, id: string, i: nat, j: nat, e: Event)
    requires cfg.Valid() && Enabled(s, Commit) && LineStart(s.log, s.committed)
    requires ReadInOrder(s.process.start, s.process.offset, Texts(s.process.inputs), s.log, s.committed, s.boots)
    requires EmittedInOrder(cfg, s.process.inputs, s.process.asm, s.process.put, [], s.spooled)
    requires Session(cfg, Complete(s.log), id, i, j) && NoBootWithin(s.boots, i, j)
    requires cfg.parse(Complete(s.log)[i]) == Some(e)
    requires |Complete(s.log[..s.committed])| <= j < |Complete(s.log[..s.process.offset])|
    ensures WasSpooled(s.spooled, id, e)
  {
    hide Complete, Partial, Texts, EmittedInOrder, WasSpooled, Fifo;
    var p, base := s.process, |Complete(s.log[..s.process.start])|;
    ReadInLog(p.start, p.offset, Texts(p.inputs), s.log, s.committed, s.boots);
    SessionWithin(cfg, Complete(s.log), Texts(p.inputs), base, id, i, j);
    WasEmitted(cfg, p.inputs, p.asm, p.put, s.spooled, id, i - base, j - base, e);
  }

  lemma WasEmitted(cfg: Config, inputs: seq<Input>, asm: Assembly, put: seq<Envelope>, spooled: seq<SpoolFile>,
                   id: string, a: nat, b: nat, e: Event)
    requires cfg.Valid() && EmittedInOrder(cfg, inputs, asm, put, [], spooled)
    requires Session(cfg, Texts(inputs), id, a, b) && cfg.parse(Texts(inputs)[a]) == Some(e)
    ensures WasSpooled(spooled, id, e)
  {
    Empty(put);
    var k := SessionWasEmitted(cfg, inputs, id, a, b, e);
    assert spooled[|spooled| - |put| + k].payload == put[k];
  }

  lemma SessionWasEmitted(cfg: Config, inputs: seq<Input>, id: string, a: nat, b: nat, e: Event) returns (k: nat)
    requires cfg.Valid() && Session(cfg, Texts(inputs), id, a, b) && cfg.parse(Texts(inputs)[a]) == Some(e)
    ensures var out := Run(cfg, EMPTY, inputs).1;
      k < |out| && Opens(out[k], id, e)
  {
    ClosedIsReported(cfg, id, inputs, a, b);
    RunRefines(cfg, EMPTY, inputs, id, None);
    k := OfIsPart(Run(cfg, EMPTY, inputs).1, id);
  }

  lemma SessionWithin(cfg: Config, lines: seq<Bytes>, texts: seq<Bytes>, base: nat, id: string, i: nat, j: nat)
    requires Session(cfg, lines, id, i, j) && base <= i && j < base + |texts| <= |lines|
    requires forall k :: 0 <= k < |texts| ==> lines[base + k] == texts[k]
    ensures Session(cfg, texts, id, i - base, j - base) && texts[i - base] == lines[i]
  {
    forall k | 0 <= k < i - base
      ensures !OfId(cfg, texts[k], id)
    {
      assert lines[base + k] == texts[k];
    }
    assert lines[base + (i - base)] == texts[i - base] && lines[base + (j - base)] == texts[j - base];
  }

  /** The first payload of a session is one of the payloads. */
  lemma {:induction false} OfIsPart(out: seq<Envelope>, id: string) returns (k: nat)
    requires Of(out, id) != []
    ensures k < |out| && out[k] == Of(out, id)[0]
  {
    var n := |out| - 1;
    if Of(out[..n], id) != [] {
      k := OfIsPart(out[..n], id);
    } else {
      k := n;
    }
  }

  // ---- Over whole runs. ----

  /** At-least-once, over every run with crashes and restarts anywhere: the committed offset is a
      line start, nothing spooled vanishes, and every session that closed before the committed
      offset, and that no process started in the middle of, has been spooled. */
  lemma {:induction false} RunsKeepInv(cfg: Config, maxFiles: nat, s: System, actions: seq<Action>, t: System)
    requires cfg.Valid() && maxFiles >= 1 && Inv(cfg, s) && RunsTo(cfg, maxFiles, s, actions, t)
    ensures Inv(cfg, t)
    decreases actions
  {
    if actions != [] {
      StepKeepsInv(cfg, maxFiles, s, actions[0]);
      RunsKeepInv(cfg, maxFiles, Apply(cfg, maxFiles, s, actions[0]), actions[1..], t);
    }
  }

  /** The pending directory is within the cap, and below it once a put has made room. */
  ghost predicate Bounded(s: System, maxFiles: nat) {
    |s.files| <= maxFiles && (s.process.Up? && s.process.room ==> |s.files| < maxFiles)
  }

  /** The disk-protection cap, over every run: the spool never holds more than `maxFiles`, wherever a
      crash falls between the two effects of a put. */
  lemma {:induction false} SpoolStaysBounded(cfg: Config, maxFiles: nat, s: System, actions: seq<Action>, t: System)
    requires cfg.Valid() && maxFiles >= 1 && Bounded(s, maxFiles) && RunsTo(cfg, maxFiles, s, actions, t)
    ensures Bounded(t, maxFiles)
    decreases |actions|
  {
    if actions != [] {
      SpoolStaysBounded(cfg, maxFiles, Apply(cfg, maxFiles, s, actions[0]), actions[1..], t);
    }
  }

  ghost predicate Acceptance(a: Action) {
    a.Deliver? && a.reply.Status? && a.reply.code / 100 == 2
  }

  ghost predicate Refusal(a: Action) {
    && a.Deliver? && a.reply.Status? && a.reply.code / 100 != 2
    && a.reply.code < 500 && a.reply.code !in {408, 425, 429}
  }

  ghost function Count(actions: seq<Action>, p: Action -> bool): nat {
    if actions == [] then 0 else (if p(actions[0]) then 1 else 0) + Count(actions[1..], p)
  }

  /** Only a final answer settles a file, over every run and through every crash: as many more are accepted as
      there were success answers, as many more dead-lettered as there were refusals, and none is taken back. */
  lemma {:induction false} AnswersSettle(cfg: Config, maxFiles: nat, s: System, actions: seq<Action>, t: System)
    requires cfg.Valid() && maxFiles >= 1 && RunsTo(cfg, maxFiles, s, actions, t)
    ensures s.accepted <= t.accepted && |t.accepted| == |s.accepted| + Count(actions, Acceptance)
    ensures s.dead <= t.dead && |t.dead| == |s.dead| + Count(actions, Refusal)
    decreases |actions|
  {
    if actions != [] {
      var u := Apply(cfg, maxFiles, s, actions[0]);
      assert s.accepted <= u.accepted && s.dead <= u.dead;
      AnswersSettle(cfg, maxFiles, u, actions[1..], t);
    }
  }

  /** A put whole: the newest file stays, and at the cap the oldest goes. */
  lemma PutIsTwoSteps(cfg: Config, maxFiles: nat, s: System, stamp: nat)
    requires cfg.Valid() && maxFiles >= 1 && Enabled(s, MakeRoom) && forall f <- s.files :: f.stamp < stamp
    ensures var t := Apply(cfg, maxFiles, s, MakeRoom);
      && Enabled(t, PutNext(stamp))
      && var u := Apply(cfg, maxFiles, t, PutNext(stamp));
         && u.files == AfterPut(s.files, maxFiles, SpoolFile(stamp, s.process.unspooled[0]))
         && u.process.put == s.process.put + [s.process.unspooled[0]] && !u.process.room
  {}

  lemma AtLeastOnce(cfg: Config, maxFiles: nat, log: Bytes, actions: seq<Action>, t: System, id: string, i: nat, j: nat)
    requires cfg.Valid() && maxFiles >= 1 && RunsTo(cfg, maxFiles, Init(log), actions, t)
    requires t.committed <= |t.log| ==> j < |Complete(t.log[..t.committed])|
    requires Session(cfg, Complete(t.log), id, i, j) && NoBootWithin(t.boots, i, j)
    ensures t.committed <= |t.log| && Partial(t.log[..t.committed]) == []
    ensures exists f: SpoolFile ::
              && f in multiset(t.files) + multiset(t.accepted) + multiset(t.dead) + multiset(t.evicted)
              && Opens(f.payload, id, cfg.parse(Complete(t.log)[i]).value)
  {
    InitHolds(cfg, log);
    RunsKeepInv(cfg, maxFiles, Init(log), actions, t);
    var e := cfg.parse(Complete(t.log)[i]).value;
    assert WasSpooled(t.spooled, id, e);
    var k :| 0 <= k < |t.spooled| && Opens(t.spooled[k].payload, id, e);
    assert t.spooled[k] in multiset(t.spooled);
  }

  /** A restarted process feeds exactly the lines from the committed offset on, in order: what it
      has read is a prefix of them. */
  lemma RestartRereadsFromCommitted(cfg: Config, s: System)
    requires cfg.Valid() && Inv(cfg, s) && s.process.Up?
    ensures s.process.start <= |s.log| && s.process.offset <= |s.log|
    ensures (Texts(s.process.inputs) + s.process.todo) + Unread(s.log, s.process.offset)
            == Unread(s.log, s.process.start)
  {
    var p := s.process;
    assert s.log[p.start..] == s.log[p.start..p.offset] + s.log[p.offset..];
    LinesAround(s.log, p.start, p.offset);
    SplitAligned(s.log[p.start..p.offset], s.log[p.offset..]);
  }
}
