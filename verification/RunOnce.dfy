/** One iteration of the poll loop over the real objects, proved to be a run of the step system:
    whatever the disk holds between two of its effects is a state of that system. */
module RunOnce {
  import opened Assembler
  import opened Assembling
  import opened Lines
  import opened Seqs
  import opened Sessions
  import opened ShipperSystem
  import opened Spooling
  import opened Tail
  import opened TailState
  import opened Wrappers

  // ---- Logs without over-long lines. ----

  ghost predicate Fits(s: Bytes, max: nat) { AllFit(Complete(s), max) && |Partial(s)| <= max }

  lemma PrefixFits(a: Bytes, b: Bytes, max: nat)
    requires Fits(a + b, max)
    ensures Fits(a, max)
  {
    var p := Partial(a);
    SplitAppend(a, b);
    assert forall i :: 0 <= i < |Complete(a)| ==> Complete(a + b)[i] == Complete(a)[i];
    if NEWLINE in b {
      FirstCut(b);
      ChunkLines(p, b, b[..FirstNewline(b)], b[FirstNewline(b) + 1..]);
      assert Complete(a + b)[|Complete(a)|] == p + b[..FirstNewline(b)];
    } else {
      NoNewlineNoLines(p + b);
    }
  }

  lemma SuffixFits(a: Bytes, b: Bytes, max: nat)
    requires Partial(a) == [] && Fits(a + b, max)
    ensures Fits(b, max)
  {
    SplitAligned(a, b);
    AllFitSuffix(Complete(a) + Complete(b), |Complete(a)|, max);
    Halves(Complete(a), Complete(b));
  }

  /** Without over-long lines, what precedes the buffer is exactly the returned lines. */
  lemma SettledPrefix(consumed: Bytes, buffer: Bytes, dropping: Option<nat>, returned: seq<Bytes>, lim: Limits)
    requires Settled(consumed, buffer, dropping, returned, lim) && Fits(consumed, lim.MaxLine())
    ensures |buffer| <= |consumed| && consumed == Join(returned) + buffer && Proper(returned)
  {
    var pre := consumed[..|consumed| - |buffer|];
    TakeDrop(consumed, |pre|);
    SplitAligned(pre, buffer);
    assert AllFit(Complete(pre), lim.MaxLine()) by {
      assert forall i :: 0 <= i < |Complete(pre)| ==> Complete(consumed)[i] == Complete(pre)[i];
    }
    KeptFit(Complete(pre), lim.MaxLine());
    JoinSplit(pre);
    LinesAreProper(pre);
    Empty(Join(returned));
  }

  /** Two successive settled states of one open file are a read step: the lines returned are the next
      ones from the old offset, and the new offset is where they end. */
  lemma ReadIsStep(content: Bytes, start: nat, pos0: nat, buffer0: Bytes, dropping0: Option<nat>, returned0: seq<Bytes>,
                   pos1: nat, buffer1: Bytes, dropping1: Option<nat>, lines: seq<Bytes>, lim: Limits)
    requires start <= pos0 <= pos1 <= |content| && Fits(content[start..], lim.MaxLine())
    requires Settled(content[start..pos0], buffer0, dropping0, returned0, lim)
    requires Settled(content[start..pos1], buffer1, dropping1, returned0 + lines, lim)
    ensures |buffer0| <= pos0 && |buffer1| <= pos1
    ensures var off := pos0 - |buffer0|;
      && |lines| <= |Unread(content, off)| && lines == Unread(content, off)[..|lines|]
      && pos1 - |buffer1| == off + |Join(lines)|
  {
    hide TailState.Settled, Complete, Partial, Kept, AllFit;
    var rest, later := content[start..], content[pos1..];
    ContentParts(content, start, pos0);
    ContentParts(content, start, pos1);
    PrefixFits(content[start..pos0], content[pos0..], lim.MaxLine());
    PrefixFits(content[start..pos1], later, lim.MaxLine());
    SettledPrefix(content[start..pos0], buffer0, dropping0, returned0, lim);
    SettledPrefix(content[start..pos1], buffer1, dropping1, returned0 + lines, lim);
    JoinAppend(returned0, lines);
    var head, read, tail := Join(returned0), Join(lines), buffer1 + later;
    Assoc(head + read, buffer1, later);
    Assoc(head, read, tail);
    Halves(head, read + tail);
    var off := pos0 - |buffer0|;
    assert off == start + |head|;
    assert content[off..] == rest[|head|..];
    ProperSuffix(returned0, lines);
    JoinIsAligned(lines);
    SplitAligned(read, tail);
    Halves(lines, Complete(tail));
  }

  lemma ContentParts(content: Bytes, a: nat, b: nat)
    requires a <= b <= |content|
    ensures content[a..] == content[a..b] + content[b..] && |content[a..b]| == b - a
  {}

  lemma ProperSuffix(a: seq<Bytes>, b: seq<Bytes>)
    requires Proper(a + b)
    ensures Proper(b)
  {
    forall i | 0 <= i < |b|
      ensures NEWLINE !in b[i]
    {
      assert (a + b)[|a| + i] == b[i];
    }
  }

  // ---- Runs. ----

  lemma NoActions(cfg: Config, maxFiles: nat, s: System)
    requires cfg.Valid() && maxFiles >= 1
    ensures RunsTo(cfg, maxFiles, s, [], s)
  {}

  lemma {:induction false} RunsPush(cfg: Config, maxFiles: nat, s: System, actions: seq<Action>, t: System, a: Action)
    requires cfg.Valid() && maxFiles >= 1 && RunsTo(cfg, maxFiles, s, actions, t) && Enabled(t, a)
    ensures RunsTo(cfg, maxFiles, s, actions + [a], Apply(cfg, maxFiles, t, a))
    decreases actions
  {
    if actions == [] {
      assert [a][1..] == [];
    } else {
      RunsPush(cfg, maxFiles, Apply(cfg, maxFiles, s, actions[0]), actions[1..], t, a);
      assert (actions + [a])[1..] == actions[1..] + [a];
    }
  }

  lemma {:induction false} RunsConcat(cfg: Config, maxFiles: nat, s: System, a: seq<Action>, t: System,
                                      b: seq<Action>, u: System)
    requires cfg.Valid() && maxFiles >= 1 && RunsTo(cfg, maxFiles, s, a, t) && RunsTo(cfg, maxFiles, t, b, u)
    ensures RunsTo(cfg, maxFiles, s, a + b, u)
    decreases a
  {
    if a == [] {
      Empty(b);
    } else {
      RunsConcat(cfg, maxFiles, Apply(cfg, maxFiles, s, a[0]), a[1..], t, b, u);
      assert (a + b)[1..] == a[1..] + b;
    }
  }

  /** The system after the first `k` replies of a drain have been handled. */
  function Drained(s: System, replies: seq<Reply>, k: nat): System
    requires k <= |replies| == |s.files|
  {
    s.(files := s.files[k..],
       accepted := s.accepted + Sorted(s.files[..k], replies[..k], true),
       dead := s.dead + Sorted(s.files[..k], replies[..k], false))
  }

  lemma {:induction false} DrainRuns(cfg: Config, maxFiles: nat, s: System, replies: seq<Reply>, k: nat)
    returns (actions: seq<Action>)
    requires cfg.Valid() && maxFiles >= 1 && s.process.Up? && !s.process.room && k <= |replies| == |s.files|
    requires forall i :: 0 <= i < k ==> !Post(replies[i]).retry
    ensures RunsTo(cfg, maxFiles, s, actions, Drained(s, replies, k))
  {
    if k == 0 {
      Empty(s.accepted);
      Empty(s.dead);
      actions := [];
    } else {
      actions := DrainRuns(cfg, maxFiles, s, replies, k - 1);
      SortedStep(s.accepted, s.files, replies, k - 1, true);
      SortedStep(s.dead, s.files, replies, k - 1, false);
      var t := Drained(s, replies, k - 1);
      assert t.files[0] == s.files[k - 1] && t.files[1..] == s.files[k..];
      Empty(t.accepted);
      Empty(t.dead);
      RunsPush(cfg, maxFiles, s, actions, t, Deliver(replies[k - 1]));
      actions := actions + [Deliver(replies[k - 1])];
    }
  }

  // ---- The objects and the system. ----

  /** The spool and the assembler hold what the system says. */
  ghost predicate Holds(s: System, assembler: SessionAssembler, spool: Spool)
    reads assembler, spool
  {
    && s.process.Up? && !s.process.room && assembler.Valid() && spool.Valid()
    && s.process.asm == assembler.State()
    && s.files == spool.files && s.dead == spool.deadLetters
    && s.accepted == spool.accepted && s.evicted == spool.evicted
  }

  /** The tailer stands where the system's process does, on a log without over-long lines. */
  ghost predicate Follows(s: System, tailer: LogTailer, log: LogFile)
    reads tailer, tailer.stateFile, tailer.file, log
  {
    && s.process.Up? && tailer.Valid() && tailer.pendingState.None?
    && Fits(log.Whole(), tailer.maxLineBytes)
    && s.log == log.content && LineStart(s.log, s.committed)
    && LeadsTo(tailer.stateFile.state, log.inode, |log.content|, s.committed)
    && (tailer.file == null ==> s.process.offset == s.committed)
    && (tailer.file != null ==>
          && tailer.file == log && tailer.tracked && LineStart(s.log, tailer.start)
          && s.process.offset == tailer.position - |tailer.buffer|)
  }

  /** What a crash leaves: the log, the state file and the spool directory hold what the system says. */
  ghost predicate OnDisk(s: System, stateFile: StateFile, spool: Spool, log: LogFile)
    reads stateFile, spool, log
  {
    && s.log == log.content && LineStart(s.log, s.committed)
    && LeadsTo(stateFile.state, log.inode, |log.content|, s.committed)
    && spool.Valid() && s.files == spool.files && s.dead == spool.deadLetters
    && s.accepted == spool.accepted && s.evicted == spool.evicted
  }

  /** Starting again: whatever the dead process had read, fed or half spooled, a new tailer and a new
      assembler over the same disk stand where a boot of the system puts them. */
  method Restart(cfg: Config, stateFile: StateFile, spool: Spool, log: LogFile, chunkBytes: nat, batchLines: nat,
                 ghost s: System)
    returns (tailer: LogTailer, assembler: SessionAssembler, ghost t: System, ghost actions: seq<Action>)
    requires cfg.Valid() && chunkBytes >= 1 && batchLines >= 1
    requires OnDisk(s, stateFile, spool, log) && Fits(log.Whole(), 4 * chunkBytes)
    ensures fresh(tailer) && fresh(assembler) && tailer.stateFile == stateFile && assembler.cfg == cfg
    ensures Follows(t, tailer, log) && Holds(t, assembler, spool)
    ensures t.process.todo == [] && t.process.unspooled == [] && t.process.start == t.process.offset == s.committed
    ensures RunsTo(cfg, spool.maxFiles, s, actions, t)
    ensures actions == (if s.process.Up? then [Crash] else []) + [Boot]
  {
    hide Fits, LeadsTo, RunsTo;
    tailer := new LogTailer(stateFile, chunkBytes, batchLines);
    assembler := new SessionAssembler(cfg);
    NoActions(cfg, spool.maxFiles, s);
    t, actions := s, [];
    if s.process.Up? {
      RunsPush(cfg, spool.maxFiles, s, actions, t, Crash);
      t, actions := Apply(cfg, spool.maxFiles, t, Crash), actions + [Crash];
    }
    RunsPush(cfg, spool.maxFiles, s, actions, t, Boot);
    t, actions := Apply(cfg, spool.maxFiles, t, Boot), actions + [Boot];
  }

  /** Spool every payload in order, under consecutive stamps. */
  method SpoolPayloads(cfg: Config, assembler: SessionAssembler, spool: Spool, payloads: seq<Envelope>, stamp: nat,
                       ghost s: System, ghost r: System, ghost before: seq<Action>)
    returns (next: nat, ghost t: System, ghost actions: seq<Action>)
    requires cfg.Valid() && Holds(r, assembler, spool) && r.process.unspooled == payloads
    requires RunsTo(cfg, spool.maxFiles, s, before, r)
    requires forall f <- spool.files :: f.stamp < stamp
    modifies spool
    ensures Holds(t, assembler, spool) && RunsTo(cfg, spool.maxFiles, s, actions, t)
    ensures t.process.unspooled == [] && t.process.todo == r.process.todo && t.process.offset == r.process.offset
    ensures t.log == r.log && t.committed == r.committed
    ensures next == stamp + |payloads| && forall f <- spool.files :: f.stamp < next
    ensures spool.accepted == old(spool.accepted) && spool.deadLetters == old(spool.deadLetters)
  {
    next, t, actions := stamp, r, before;
    var i := 0;
    while i < |payloads|
      invariant 0 <= i <= |payloads| && next == stamp + i
      invariant Holds(t, assembler, spool) && RunsTo(cfg, spool.maxFiles, s, actions, t)
      invariant t.process.unspooled == payloads[i..] && t.process.todo == r.process.todo
      invariant t.process.offset == r.process.offset && t.log == r.log && t.committed == r.committed
      invariant forall f <- spool.files :: f.stamp < next
      invariant spool.accepted == old(spool.accepted) && spool.deadLetters == old(spool.deadLetters)
    {
      PutIsTwoSteps(cfg, spool.maxFiles, t, next);
      RunsPush(cfg, spool.maxFiles, s, actions, t, MakeRoom);
      t, actions := Apply(cfg, spool.maxFiles, t, MakeRoom), actions + [MakeRoom];
      RunsPush(cfg, spool.maxFiles, s, actions, t, PutNext(next));
      t, actions := Apply(cfg, spool.maxFiles, t, PutNext(next)), actions + [PutNext(next)];
      spool.Put(payloads[i], next);
      next, i := next + 1, i + 1;
    }
  }

  /** Feed the lines, then flush what is idle, spooling every payload as it appears. */
  method SpoolNewPayloads(assembler: SessionAssembler, spool: Spool, lines: seq<Bytes>, clock: nat -> real, stamp: nat,
                          ghost s: System, ghost r: System, ghost before: seq<Action>)
    returns (ghost t: System, ghost actions: seq<Action>)
    requires Holds(r, assembler, spool) && r.process.unspooled == [] && r.process.todo == lines
    requires RunsTo(assembler.cfg, spool.maxFiles, s, before, r)
    requires forall f <- spool.files :: f.stamp < stamp
    modifies assembler, spool
    ensures Holds(t, assembler, spool) && RunsTo(assembler.cfg, spool.maxFiles, s, actions, t)
    ensures t.process.unspooled == [] && t.process.todo == []
    ensures t.process.offset == r.process.offset && t.log == r.log && t.committed == r.committed
    ensures forall o :: o in assembler.sessions ==> clock(|lines|) - o.lastSeen < assembler.cfg.idleFlush
    ensures spool.accepted == old(spool.accepted) && spool.deadLetters == old(spool.deadLetters)
  {
    hide Step, RunsTo;
    var cfg := assembler.cfg;
    var next, i := stamp, 0;
    t, actions := r, before;
    while i < |lines|
      invariant 0 <= i <= |lines|
      invariant Holds(t, assembler, spool) && RunsTo(cfg, spool.maxFiles, s, actions, t)
      invariant t.process.unspooled == [] && t.process.todo == lines[i..]
      invariant t.process.offset == r.process.offset && t.log == r.log && t.committed == r.committed
      invariant forall f <- spool.files :: f.stamp < next
      invariant spool.accepted == old(spool.accepted) && spool.deadLetters == old(spool.deadLetters)
    {
      var a := FeedNext(clock(i));
      RunsPush(cfg, spool.maxFiles, s, actions, t, a);
      t, actions := Apply(cfg, spool.maxFiles, t, a), actions + [a];
      var payloads := assembler.FeedLine(lines[i], clock(i));
      Empty(payloads);
      next, t, actions := SpoolPayloads(cfg, assembler, spool, payloads, next, s, t, actions);
      i := i + 1;
    }
    var a := FlushOpen(Idle(clock(i)));
    RunsPush(cfg, spool.maxFiles, s, actions, t, a);
    t, actions := Apply(cfg, spool.maxFiles, t, a), actions + [a];
    var payloads := assembler.FlushIdle(clock(i));
    Empty(payloads);
    next, t, actions := SpoolPayloads(cfg, assembler, spool, payloads, next, s, t, actions);
  }

  /** Tail, feed, spool, commit the offset, drain: in that order. Every effect on the disk is a step
      of the system, so what a crash between any two leaves is what `Restart` starts from. */
  method RunOnce(tailer: LogTailer, assembler: SessionAssembler, spool: Spool, backoff: Backoff, log: LogFile,
                 clock: nat -> real, stamp: nat, replies: nat -> Reply, ghost s: System)
    returns (linesRead: nat, delivered: nat, ghost t: System, ghost actions: seq<Action>)
    requires Follows(s, tailer, log) && Holds(s, assembler, spool)
    requires s.process.todo == [] && s.process.unspooled == []
    requires forall f <- spool.files :: f.stamp < stamp
    modifies tailer, tailer.stateFile, tailer.file, log, assembler, spool, backoff
    ensures Follows(t, tailer, log) && Holds(t, assembler, spool)
    ensures RunsTo(assembler.cfg, spool.maxFiles, s, actions, t)
    ensures t.process.todo == [] && t.process.unspooled == [] && t.committed == t.process.offset
    ensures linesRead <= tailer.maxBatchLines
    // It makes progress: an empty read has reached the end of the log, no idle session stays open, and the
    // spool is delivered down to the first file whose reply asks for another try.
    ensures linesRead == 0 ==> tailer.AtEnd(old(log.arrivals), log) || tailer.droppedLines > old(tailer.droppedLines)
    ensures forall o :: o in assembler.sessions ==> clock(linesRead) - o.lastSeen < assembler.cfg.idleFlush
    ensures delivered == |spool.accepted| - |old(spool.accepted)|
    ensures Dealt(replies, delivered + |spool.deadLetters| - |old(spool.deadLetters)|, |spool.files|)
  {
    hide RunsTo, TailState.Settled, Complete, Partial, Fits, Flatten, LeadsTo, LineStart, Fifo, Dealt;
    var cfg, maxFiles := assembler.cfg, spool.maxFiles;
    var lines;
    lines, t, actions := ReadStep(cfg, maxFiles, tailer, log, s);
    assert OnDisk(t, tailer.stateFile, spool, log);
    t, actions := SpoolNewPayloads(assembler, spool, lines, clock, stamp, s, t, actions);
    assert OnDisk(t, tailer.stateFile, spool, log);
    tailer.CommitOffset();
    RunsPush(cfg, maxFiles, s, actions, t, Commit);
    t, actions := Apply(cfg, maxFiles, t, Commit), actions + [Commit];
    assert OnDisk(t, tailer.stateFile, spool, log);
    delivered, t, actions := DeliverPending(cfg, spool, backoff, replies, s, t, actions);
    linesRead := |lines|;
  }

  /** The drain at the end of an iteration, as delivery steps: it stops at an empty spool or at the first
      reply that asks for another try. */
  method DeliverPending(ghost cfg: Config, spool: Spool, backoff: Backoff, replies: nat -> Reply,
                        ghost s: System, ghost r: System, ghost before: seq<Action>)
    returns (delivered: nat, ghost t: System, ghost actions: seq<Action>)
    requires cfg.Valid() && spool.Valid() && r.process.Up? && !r.process.room
    requires r.files == spool.files && r.dead == spool.deadLetters && r.accepted == spool.accepted
    requires r.evicted == spool.evicted && RunsTo(cfg, spool.maxFiles, s, before, r)
    modifies spool, backoff
    ensures spool.Valid() && RunsTo(cfg, spool.maxFiles, s, actions, t)
    ensures t == r.(files := spool.files, dead := spool.deadLetters, accepted := spool.accepted)
    ensures spool.evicted == old(spool.evicted)
    ensures delivered == |spool.accepted| - |old(spool.accepted)|
    ensures Dealt(replies, delivered + |spool.deadLetters| - |old(spool.deadLetters)|, |spool.files|)
  {
    hide RunsTo, Handled, Sorted;
    var answers := seq(|spool.files|, i requires 0 <= i => replies(i));
    ghost var n := Handled(answers);
    ghost var delivers := DrainRuns(cfg, spool.maxFiles, r, answers, n);
    SortedCounts(r.files, answers, n);
    RunsConcat(cfg, spool.maxFiles, s, before, r, delivers, Drained(r, answers, n));
    t, actions := Drained(r, answers, n), before + delivers;
    delivered := Drain(spool, backoff, answers);
    assert |spool.accepted| - |old(spool.accepted)| + |spool.deadLetters| - |old(spool.deadLetters)| == n;
    forall i: nat | i < n
      ensures !Post(replies(i)).retry
    {
      assert answers[i] == replies(i);
    }
    assert n < |answers| ==> answers[n] == replies(n);
  }

  /** So many files were dealt with, none of their replies asking for another try, and if any are left
      then the next reply did. */
  ghost predicate Dealt(replies: nat -> Reply, dealt: int, left: nat) {
    && 0 <= dealt
    && (forall i: nat :: i < dealt ==> !Post(replies(i)).retry)
    && (left > 0 ==> Post(replies(dealt)).retry)
  }

  /** Every file dealt with was accepted or dead-lettered. */
  lemma SortedCounts(files: seq<SpoolFile>, replies: seq<Reply>, n: nat)
    requires n <= |files| == |replies|
    ensures |Sorted(files[..n], replies[..n], true)| + |Sorted(files[..n], replies[..n], false)| == n
  {
    DrainPartitions(files[..n], replies[..n]);
    var a, d := Sorted(files[..n], replies[..n], true), Sorted(files[..n], replies[..n], false);
    assert |multiset(a) + multiset(d)| == |a| + |d| && |multiset(files[..n])| == n;
  }

  /** The read at the head of an iteration, as an append step followed by a read step. */
  method ReadStep(ghost cfg: Config, ghost maxFiles: nat, tailer: LogTailer, log: LogFile, ghost s: System)
    returns (lines: seq<Bytes>, ghost t: System, ghost actions: seq<Action>)
    requires cfg.Valid() && maxFiles >= 1
    requires Follows(s, tailer, log) && s.process.todo == [] && s.process.unspooled == []
    modifies tailer, tailer.stateFile, tailer.file, log
    ensures RunsTo(cfg, maxFiles, s, actions, t) && t == s.(log := t.log, process := t.process)
    ensures t.process.Up? && t.process == s.process.(offset := t.process.offset, todo := lines)
    ensures |lines| <= tailer.maxBatchLines && tailer.Valid() && tailer.stateFile.state == old(tailer.stateFile.state)
    ensures tailer.file == log && tailer.tracked && LineStart(t.log, tailer.start)
    ensures t.process.offset == tailer.position - |tailer.buffer|
    ensures LineStart(t.log, t.process.offset)
    ensures Fits(log.Whole(), tailer.maxLineBytes) && t.log == log.content && LineStart(t.log, t.committed)
    ensures LeadsTo(tailer.stateFile.state, log.inode, |log.content|, t.committed)
    ensures lines == [] ==> tailer.AtEnd(old(log.arrivals), log) || tailer.droppedLines > old(tailer.droppedLines)
  {
    hide TailState.Settled, Complete, Partial, Kept, Join, AllFit, Fits, Flatten, RunsTo, LineStart;
    ghost var content0, lim := log.content, tailer.Lim();
    ghost var pos0, buffer0 := s.committed, [];
    ghost var dropping0: Option<nat>, returned0 := None, [];
    if tailer.file != null {
      pos0, buffer0, dropping0, returned0 := tailer.position, tailer.buffer, tailer.droppingBytes, tailer.returned;
      SettledFacts(tailer.Consumed(), buffer0, dropping0, returned0, lim);
    } else {
      FreshIsSettled(lim);
      Empty(returned0);
    }
    lines := tailer.ReadNewLines(log, false);
    ghost var start, more := tailer.start, log.content[|content0|..];
    assert log.content == content0 + more;
    AppendKeepsLines(content0, more);
    assert log.content[start..pos0] == content0[start..pos0];
    Empty(lines);
    assert Settled(log.content[start..pos0], buffer0, dropping0, returned0, lim) by {
      if pos0 == start && buffer0 == [] {
        assert log.content[start..pos0] == [];
      }
    }
    SameLineStart(content0, more, s.committed);
    SameLineStart(content0, more, start);
    LogFits(log.content, Flatten(log.arrivals), start, tailer.maxLineBytes);
    ReadIsStep(log.content, start, pos0, buffer0, dropping0, returned0,
               tailer.position, tailer.buffer, tailer.droppingBytes, lines, lim);
    t, actions := ReadRuns(cfg, maxFiles, s, more, |lines|);
  }

  lemma SameLineStart(log: Bytes, more: Bytes, k: nat)
    requires LineStart(log, k)
    ensures k <= |log| && LineStart(log + more, k)
  {
    assert (log + more)[..k] == log[..k];
  }

  /** Growth, then a read of the next `n` lines. */
  lemma ReadRuns(cfg: Config, maxFiles: nat, s: System, more: Bytes, n: nat) returns (t: System, actions: seq<Action>)
    requires cfg.Valid() && maxFiles >= 1 && s.process.Up? && s.process.todo == [] && s.process.unspooled == []
    requires LineStart(s.log, s.process.offset) && n <= |Unread(s.log + more, s.process.offset)|
    ensures RunsTo(cfg, maxFiles, s, actions, t)
    ensures var lines := Unread(s.log + more, s.process.offset)[..n];
      && t == s.(log := s.log + more, process := s.process.(offset := s.process.offset + |Join(lines)|, todo := lines))
      && LineStart(t.log, t.process.offset)
  {
    hide Complete, Partial, Join, RunsTo, LineStart;
    NoActions(cfg, maxFiles, s);
    RunsPush(cfg, maxFiles, s, [], s, Append(more));
    t := Apply(cfg, maxFiles, s, Append(more));
    SameLineStart(s.log, more, s.process.offset);
    ReadEndsOnLine(t.log, t.process.offset, n);
    RunsPush(cfg, maxFiles, s, [] + [Append(more)], t, Read(n));
    actions := [] + [Append(more)] + [Read(n)];
    t := Apply(cfg, maxFiles, t, Read(n));
  }

  lemma FreshIsSettled(lim: Limits)
    ensures Settled([], [], None, [], lim)
  {}

  lemma LogFits(content: Bytes, later: Bytes, start: nat, max: nat)
    requires Fits(content + later, max) && LineStart(content, start)
    ensures Fits(content[start..], max)
  {
    PrefixFits(content, later, max);
    TakeDrop(content, start);
    SuffixFits(content[..start], content[start..], max);
  }
}
