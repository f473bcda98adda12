/** Re-emission over runs: a process that reads a session from its connect to its close spools one
    payload for it, and that payload is a function of the log alone. A process started after a crash
    that reads the session again spools the same bytes. */
module Reemission {
  import opened Assembling
  import opened AssemblyTheorems
  import opened Lines
  import opened Redelivery
  import opened Seqs
  import opened Sessions
  import opened ShipperSystem
  import opened Spooling
  import opened Wrappers

  // ---- One session in the lines. ----

  /** The events of a session among the lines, in order. */
  function EventsOf(cfg: Config, id: string, texts: seq<Bytes>): seq<Event> {
    if texts == [] then []
    else
      var last := texts[|texts| - 1];
      EventsOf(cfg, id, texts[..|texts| - 1]) + if OfId(cfg, last, id) then [cfg.parse(last).value] else []
  }

  /** The session's first line is `i`, its connect, and its first closed line is `j`. */
  ghost predicate WholeSession(cfg: Config, lines: seq<Bytes>, id: string, i: nat, j: nat) {
    && Session(cfg, lines, id, i, j)
    && forall k :: 0 <= k < j && OfId(cfg, lines[k], id) ==> !cfg.parse(lines[k]).value.kind.Closed?
  }

  /** What is to be shipped for it. */
  function WholeReport(cfg: Config, id: string, lines: seq<Bytes>, j: nat): seq<Envelope>
    requires cfg.Valid() && j < |lines|
  {
    var es := EventsOf(cfg, id, lines[..j + 1]);
    if es == [] then [] else Reported(cfg, id, History(es, 0.0))
  }

  lemma EventsPush(cfg: Config, id: string, texts: seq<Bytes>, t: Bytes)
    ensures EventsOf(cfg, id, texts + [t])
         == EventsOf(cfg, id, texts) + if OfId(cfg, t, id) then [cfg.parse(t).value] else []
  {
    Halves(texts, [t]);
  }

  lemma {:induction false} NoEvents(cfg: Config, id: string, texts: seq<Bytes>)
    requires forall k :: 0 <= k < |texts| ==> !OfId(cfg, texts[k], id)
    ensures EventsOf(cfg, id, texts) == []
  {
    if texts != [] {
      NoEvents(cfg, id, texts[..|texts| - 1]);
    }
  }

  lemma {:induction false} EventsSkip(cfg: Config, id: string, front: seq<Bytes>, texts: seq<Bytes>)
    requires forall k :: 0 <= k < |front| ==> !OfId(cfg, front[k], id)
    ensures EventsOf(cfg, id, front + texts) == EventsOf(cfg, id, texts)
  {
    if texts == [] {
      NoEvents(cfg, id, front);
      Empty(front);
    } else {
      var rest, last := texts[..|texts| - 1], texts[|texts| - 1];
      EventsSkip(cfg, id, front, rest);
      EventsPush(cfg, id, front + rest, last);
      EventsPush(cfg, id, rest, last);
      Rejoin(texts);
      Assoc(front, rest, [last]);
    }
  }

  /** Until the closed line nothing is shipped and every event of the session is held. */
  lemma {:induction false} OpenUntilClosed(cfg: Config, id: string, texts: seq<Bytes>)
    requires cfg.Valid()
    requires forall k :: 0 <= k < |texts| && OfId(cfg, texts[k], id) ==> !cfg.parse(texts[k]).value.kind.Closed?
    ensures TextRun(cfg, id, texts) == (EventsOf(cfg, id, texts), [])
  {
    if texts != [] {
      var front, last := texts[..|texts| - 1], texts[|texts| - 1];
      forall k | 0 <= k < |front| && OfId(cfg, front[k], id)
        ensures !cfg.parse(front[k]).value.kind.Closed?
      {
        assert texts[k] == front[k];
      }
      OpenUntilClosed(cfg, id, front);
      Rejoin(texts);
      TextStep(cfg, id, front, last);
      EventsPush(cfg, id, front, last);
      hide TextRun, EventsOf;
      Empty(EventsOf(cfg, id, front));
    }
  }

  lemma {:induction false} FirstEvent(cfg: Config, id: string, texts: seq<Bytes>, i: nat)
    requires ConnectsAt(cfg, texts, id, i)
    ensures EventsOf(cfg, id, texts) != [] && EventsOf(cfg, id, texts)[0] == cfg.parse(texts[i]).value
  {
    var front := texts[..|texts| - 1];
    if i < |front| {
      FirstEvent(cfg, id, front, i);
    } else {
      NoEvents(cfg, id, front);
    }
  }

  /** The first thing shipped for the session is the report of all its events up to the close. */
  lemma {:induction false} FirstReport(cfg: Config, id: string, texts: seq<Bytes>, i: nat, j: nat)
    requires cfg.Valid() && WholeSession(cfg, texts, id, i, j)
    ensures |WholeReport(cfg, id, texts, j)| == 1
    ensures WholeReport(cfg, id, texts, j) <= TextRun(cfg, id, texts).1
  {
    var n := |texts| - 1;
    var front, last := texts[..n], texts[n];
    Rejoin(texts);
    TextStep(cfg, id, front, last);
    if j < n {
      assert front[..j + 1] == texts[..j + 1];
      SessionIn(cfg, texts, front, id, i, j);
      FirstReport(cfg, id, front, i, j);
      hide TextRun, Reported;
      Empty(TextRun(cfg, id, front).1);
    } else {
      assert texts[..j + 1] == texts;
      forall k | 0 <= k < |front| && OfId(cfg, front[k], id)
        ensures !cfg.parse(front[k]).value.kind.Closed?
      {
        assert texts[k] == front[k];
      }
      OpenUntilClosed(cfg, id, front);
      FirstEvent(cfg, id, texts, i);
      EventsPush(cfg, id, front, last);
      hide TextRun, EventsOf;
      Empty(Reported(cfg, id, History(EventsOf(cfg, id, texts), 0.0)));
    }
  }

  lemma SessionIn(cfg: Config, texts: seq<Bytes>, front: seq<Bytes>, id: string, i: nat, j: nat)
    requires WholeSession(cfg, texts, id, i, j) && front <= texts && j < |front|
    ensures WholeSession(cfg, front, id, i, j)
  {
    assert forall k :: 0 <= k < |front| ==> front[k] == texts[k];
  }

  // ---- One process. ----

  /** The process is up with nothing read but unfed and nothing emitted but unspooled. */
  ghost predicate Settled(s: System) {
    s.process.Up? && s.process.todo == [] && s.process.unspooled == []
  }

  /** What a settled process has spooled for a session no flush has cut is a function of the lines it
      read. */
  lemma PutIsTextRun(cfg: Config, s: System, id: string)
    requires cfg.Valid() && Inv(cfg, s) && Settled(s) && Quiet(cfg, id, s.process.inputs)
    ensures s.process.start <= s.process.offset <= |s.log|
    ensures Of(s.process.put, id) == TextRun(cfg, id, Complete(s.log[s.process.start..s.process.offset])).1
  {
    var p := s.process;
    hide Complete, Run, RefRun, TextRun, Of, Conserved, NothingLost;
    Empty(p.put);
    Empty(Texts(p.inputs));
    RunRefines(cfg, EMPTY, p.inputs, id, None);
    QuietRunsAreClockFree(cfg, id, p.inputs);
  }

  /** The process read the session from its connect to its close. */
  ghost predicate ReadWhole(s: System, i: nat, j: nat)
    requires s.process.Up? && s.process.start <= |s.log| && s.process.offset <= |s.log|
  {
    |Complete(s.log[..s.process.start])| <= i && j < |Complete(s.log[..s.process.offset])|
  }

  /** It has then spooled the whole session's report, first of all it spooled for the session. */
  lemma ReadWholeIsReported(cfg: Config, s: System, id: string, i: nat, j: nat)
    requires cfg.Valid() && Inv(cfg, s) && Settled(s) && Quiet(cfg, id, s.process.inputs)
    requires WholeSession(cfg, Complete(s.log), id, i, j)
    requires s.process.start <= |s.log| && s.process.offset <= |s.log| && ReadWhole(s, i, j)
    ensures |WholeReport(cfg, id, Complete(s.log), j)| == 1
    ensures WholeReport(cfg, id, Complete(s.log), j) <= Of(s.process.put, id)
  {
    hide Complete, TextRun, Of, Conserved, NothingLost, EmittedInOrder, Quiet, WholeReport, WholeSession, Texts;
    var p, lines := s.process, Complete(s.log);
    var base, read := |Complete(s.log[..p.start])|, Texts(p.inputs);
    PutIsTextRun(cfg, s, id);
    Empty(read);
    ReadInLog(p.start, p.offset, read, s.log, s.committed, s.boots);
    ReportOfPart(cfg, lines, read, base, id, i, j);
    FirstReport(cfg, id, read, i - base, j - base);
  }

  lemma ReportOfPart(cfg: Config, lines: seq<Bytes>, texts: seq<Bytes>, base: nat, id: string, i: nat, j: nat)
    requires cfg.Valid() && WholeSession(cfg, lines, id, i, j) && base <= i && j < base + |texts| <= |lines|
    requires forall k :: 0 <= k < |texts| ==> lines[base + k] == texts[k]
    ensures base <= i < j && WholeSession(cfg, texts, id, i - base, j - base)
    ensures WholeReport(cfg, id, texts, j - base) == WholeReport(cfg, id, lines, j)
  {
    SessionWithin(cfg, lines, texts, base, id, i, j);
    forall k | 0 <= k < j - base && OfId(cfg, texts[k], id)
      ensures !cfg.parse(texts[k]).value.kind.Closed?
    {
      assert lines[base + k] == texts[k];
    }
    var front, rest := lines[..base], texts[..j - base + 1];
    assert lines[..j + 1] == front + rest;
    EventsSkip(cfg, id, front, rest);
    hide EventsOf, Reported;
  }

  // ---- Over runs. ----

  lemma {:induction false} LogGrows(cfg: Config, maxFiles: nat, s: System, actions: seq<Action>, t: System)
    requires cfg.Valid() && maxFiles >= 1 && RunsTo(cfg, maxFiles, s, actions, t)
    ensures s.log <= t.log && s.spooled <= t.spooled
    decreases |actions|
  {
    if actions != [] {
      LogGrows(cfg, maxFiles, Apply(cfg, maxFiles, s, actions[0]), actions[1..], t);
    }
  }

  /** The payload went through the spool. */
  ghost predicate Spooled(s: System, p: Envelope) {
    exists k :: 0 <= k < |s.spooled| && s.spooled[k].payload == p
  }

  lemma {:induction false} FirstOf(out: seq<Envelope>, id: string, p: Envelope) returns (k: nat)
    requires [p] <= Of(out, id)
    ensures k < |out| && out[k] == p
  {
    k := OfIsPart(out, id);
  }

  lemma PutIsSpooled(cfg: Config, s: System, id: string, p: Envelope)
    requires cfg.Valid() && Inv(cfg, s) && s.process.Up? && [p] <= Of(s.process.put, id)
    ensures Spooled(s, p)
  {
    hide Of, Run, Conserved, NothingLost, ReadInOrder;
    var put := s.process.put;
    var k := FirstOf(put, id, p);
    assert s.spooled[|s.spooled| - |put| + k].payload == put[k];
  }

  /** Re-emission: in any run, two settled processes that each read a session from its connect to its
      close, before and after any crashes and restarts and with no flush while it was open, each ship
      first for it the one payload of the whole session. The two are equal, byte for byte. */
  lemma ReemittedIdentically(cfg: Config, maxFiles: nat, log: Bytes, before: seq<Action>, s: System,
                             after: seq<Action>, t: System, id: string, i: nat, j: nat)
    requires cfg.Valid() && maxFiles >= 1
    requires RunsTo(cfg, maxFiles, Init(log), before, s) && RunsTo(cfg, maxFiles, s, after, t)
    requires Settled(s) && Settled(t) && Quiet(cfg, id, s.process.inputs) && Quiet(cfg, id, t.process.inputs)
    requires s.process.start <= |s.log| && s.process.offset <= |s.log| && ReadWhole(s, i, j)
    requires t.process.start <= |t.log| && t.process.offset <= |t.log| && ReadWhole(t, i, j)
    requires WholeSession(cfg, Complete(t.log), id, i, j)
    ensures exists p ::
              && WholeReport(cfg, id, Complete(t.log), j) == [p] && Spooled(s, p) && Spooled(t, p)
              && [p] <= Of(s.process.put, id) && [p] <= Of(t.process.put, id)
  {
    hide RunsTo, Complete, Of, Quiet, Inv, WholeReport, WholeSession;
    InitHolds(cfg, log);
    RunsKeepInv(cfg, maxFiles, Init(log), before, s);
    RunsKeepInv(cfg, maxFiles, s, after, t);
    LogGrows(cfg, maxFiles, s, after, t);
    SameReport(cfg, s.log, t.log, s.process.offset, id, i, j);
    ReadWholeIsReported(cfg, s, id, i, j);
    ReadWholeIsReported(cfg, t, id, i, j);
    var p := WholeReport(cfg, id, Complete(t.log), j)[0];
    assert WholeReport(cfg, id, Complete(t.log), j) == [p];
    PutIsSpooled(cfg, s, id, p);
    PutIsSpooled(cfg, t, id, p);
  }

  /** A log that has only grown tells the same of a session that had been read. */
  lemma SameReport(cfg: Config, log: Bytes, longer: Bytes, offset: nat, id: string, i: nat, j: nat)
    requires cfg.Valid() && log <= longer && offset <= |log| && j < |Complete(log[..offset])|
    requires WholeSession(cfg, Complete(longer), id, i, j)
    ensures j < |Complete(log)| <= |Complete(longer)| && WholeSession(cfg, Complete(log), id, i, j)
    ensures WholeReport(cfg, id, Complete(log), j) == WholeReport(cfg, id, Complete(longer), j)
  {
    var lines, more := Complete(log), Complete(longer);
    PrefixLines(log[..offset], log);
    PrefixLines(log, longer);
    hide Complete, EventsOf, Reported;
    SessionIn(cfg, more, lines, id, i, j);
    assert lines[..j + 1] == more[..j + 1];
  }

  lemma PrefixLines(a: Bytes, b: Bytes)
    requires a <= b
    ensures Complete(a) <= Complete(b)
  {
    var rest := b[|a|..];
    assert b == a + rest;
    SplitAppend(a, rest);
  }
}
