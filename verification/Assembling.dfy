/** The assembler's steps, an uncapped per-session reference, and the proof that every interleaving
    of sessions emits, for each session, exactly what that session's own lines would. */
module Assembling {
  import opened Lines
  import opened Seqs
  import opened Sessions
  import opened Wrappers

  // ---- The assembler's steps. ----

  /** Append one event to its session, dropping the second-newest once over the cap. */
  function Extend(cfg: Config, prior: Option<OpenSession>, e: Event, now: real): OpenSession
    requires cfg.Valid()
  {
    var s := match prior
             case Some(s) => s
             case None => OpenSession(e.session, e.srcIp, e.sensor, [], now, e.kind.Connect?, 0);
    var grown := s.events + [e];
    if |grown| > cfg.maxEvents then
      s.(events := grown[..|grown| - 2] + [grown[|grown| - 1]], lastSeen := now, droppedEvents := s.droppedEvents + 1)
    else
      s.(events := grown, lastSeen := now)
  }

  function Emitted(cfg: Config, s: OpenSession): seq<Envelope>
    requires cfg.Valid()
  {
    if s.hasConnect then [Build(cfg, s)] else []
  }

  /** Ship or drop one session already taken out of the table. */
  function Close(cfg: Config, st: Assembly, s: OpenSession): (Assembly, seq<Envelope>)
    requires cfg.Valid()
  {
    if !s.hasConnect then (st.(droppedNoConnect := st.droppedNoConnect + 1), [])
    else
      var payload := Build(cfg, s);
      (st.(truncatedSessions := st.truncatedSessions + if payload.truncated.Some? then 1 else 0), [payload])
  }

  function Feed(cfg: Config, st: Assembly, text: Bytes, now: real): (Assembly, seq<Envelope>)
    requires cfg.Valid()
  {
    match cfg.parse(text)
    case None => (st.(parseErrors := st.parseErrors + 1), [])
    case Some(e) =>
      var s := Extend(cfg, Find(st.open, e.session), e, now);
      var open := Put(st.open, s);
      if !e.kind.Closed? then (st.(open := open), [])
      else Close(cfg, st.(open := Remove(open, e.session)), s)
  }

  /** The ids idle for at least the timeout, in table order. */
  function Stale(open: seq<OpenSession>, now: real, idle: real): seq<string> {
    if open == [] then []
    else if now - open[0].lastSeen >= idle then [open[0].sessionId] + Stale(open[1..], now, idle)
    else Stale(open[1..], now, idle)
  }

  function Ids(open: seq<OpenSession>): seq<string> {
    if open == [] then [] else [open[0].sessionId] + Ids(open[1..])
  }

  function Flush(cfg: Config, st: Assembly, ids: seq<string>): (Assembly, seq<Envelope>)
    requires cfg.Valid()
    decreases ids
  {
    if ids == [] then (st, [])
    else
      match Find(st.open, ids[0])
      case None => Flush(cfg, st, ids[1..])
      case Some(s) =>
        var (st1, out) := Close(cfg, st.(open := Remove(st.open, ids[0])), s);
        var (st2, rest) := Flush(cfg, st1, ids[1..]);
        (st2, out + rest)
  }

  function Step(cfg: Config, st: Assembly, i: Input): (Assembly, seq<Envelope>)
    requires cfg.Valid()
  {
    match i
    case Line(text, now) => Feed(cfg, st, text, now)
    case Idle(now) => Flush(cfg, st, Stale(st.open, now, cfg.idleFlush))
    case Shutdown => Flush(cfg, st, Ids(st.open))
  }

  /** A whole run and everything it emitted. */
  function Run(cfg: Config, st: Assembly, inputs: seq<Input>): (Assembly, seq<Envelope>)
    requires cfg.Valid()
  {
    if inputs == [] then (st, [])
    else
      var (st1, out) := Run(cfg, st, inputs[..|inputs| - 1]);
      var (st2, more) := Step(cfg, st1, inputs[|inputs| - 1]);
      (st2, out + more)
  }

  // ---- The reference: one session, its whole history, no incremental cap. ----

  datatype History = History(events: seq<Event>, lastSeen: real)

  /** The payload of a complete history: its header comes from the first event, its events are the
      first ones and the last one, and the rest are counted. */
  function Summary(cfg: Config, id: string, h: History): OpenSession
    requires cfg.Valid() && h.events != []
  {
    var kept := Keep(h.events, cfg.maxEvents);
    OpenSession(id, h.events[0].srcIp, h.events[0].sensor, kept, h.lastSeen, h.events[0].kind.Connect?,
                |h.events| - |kept|)
  }

  function Reported(cfg: Config, id: string, h: History): seq<Envelope>
    requires cfg.Valid() && h.events != []
  {
    if h.events[0].kind.Connect? then [Build(cfg, Summary(cfg, id, h))] else []
  }

  type OpenHistory = h: Option<History> | h.Some? ==> h.value.events != [] witness None

  function RefStep(cfg: Config, id: string, h: OpenHistory, i: Input): (OpenHistory, seq<Envelope>)
    requires cfg.Valid()
  {
    match i
    case Line(text, now) =>
      if cfg.parse(text).None? || cfg.parse(text).value.session != id then (h, [])
      else
        var e := cfg.parse(text).value;
        var grown := History((if h.Some? then h.value.events else []) + [e], now);
        if e.kind.Closed? then (None, Reported(cfg, id, grown)) else (Some(grown), [])
    case Idle(now) =>
      if h.Some? && now - h.value.lastSeen >= cfg.idleFlush then (None, Reported(cfg, id, h.value)) else (h, [])
    case Shutdown =>
      if h.Some? then (None, Reported(cfg, id, h.value)) else (h, [])
  }

  function RefRun(cfg: Config, id: string, h: OpenHistory, inputs: seq<Input>): (OpenHistory, seq<Envelope>)
    requires cfg.Valid()
  {
    if inputs == [] then (h, [])
    else
      var (h1, out) := RefRun(cfg, id, h, inputs[..|inputs| - 1]);
      var (h2, more) := RefStep(cfg, id, h1, inputs[|inputs| - 1]);
      (h2, out + more)
  }

  /** The payloads that belong to one session, in order. */
  function Of(out: seq<Envelope>, id: string): seq<Envelope> {
    if out == [] then []
    else Of(out[..|out| - 1], id) + if out[|out| - 1].sessionId == id then [out[|out| - 1]] else []
  }

  lemma OfPush(out: seq<Envelope>, last: Envelope, id: string)
    ensures Of(out + [last], id) == Of(out, id) + if last.sessionId == id then [last] else []
  {
    Halves(out, [last]);
  }

  lemma {:induction false} OfAppend(a: seq<Envelope>, b: seq<Envelope>, id: string)
    ensures Of(a + b, id) == Of(a, id) + Of(b, id)
  {
    if b == [] {
      Empty(a);
      Empty(Of(a, id));
    } else {
      var front, last := b[..|b| - 1], b[|b| - 1];
      OfAppend(a, front, id);
      assert b == front + [last];
      Assoc(a, front, [last]);
      OfPush(a + front, last, id);
      Assoc(Of(a, id), Of(front, id), if last.sessionId == id then [last] else []);
    }
  }

  // ---- Refinement. ----

  /** The table entry of a session is the capped summary of its whole history. */
  ghost predicate Represents(cfg: Config, st: Assembly, id: string, h: OpenHistory)
    requires cfg.Valid()
  {
    Find(st.open, id) == match h { case None => None case Some(history) => Some(Summary(cfg, id, history)) }
  }

  /** Capping on arrival gives the summary of the longer history. */
  lemma ExtendSummarizes(cfg: Config, id: string, h: OpenHistory, e: Event, now: real)
    requires cfg.Valid() && e.session == id
    ensures var prior := match h { case None => None case Some(history) => Some(Summary(cfg, id, history)) };
      Extend(cfg, prior, e, now)
      == Summary(cfg, id, History((if h.Some? then h.value.events else []) + [e], now))
  {
    var es := if h.Some? then h.value.events else [];
    KeepGrow(es, e, cfg.maxEvents);
    Empty([e]);
  }

  predicate NoDup(ids: seq<string>) {
    ids == [] || (ids[0] !in ids[1..] && NoDup(ids[1..]))
  }

  lemma {:induction false} StaleIds(open: seq<OpenSession>, now: real, idle: real)
    requires UniqueIds(open)
    ensures NoDup(Stale(open, now, idle))
    ensures forall id :: id in Stale(open, now, idle)
                         <==> Find(open, id).Some? && now - Find(open, id).value.lastSeen >= idle
  {
    if open != [] {
      StaleIds(open[1..], now, idle);
    }
  }

  lemma {:induction false} AllIds(open: seq<OpenSession>)
    requires UniqueIds(open)
    ensures NoDup(Ids(open))
    ensures forall id :: id in Ids(open) <==> Find(open, id).Some?
  {
    if open != [] {
      AllIds(open[1..]);
    }
  }

  /** A flush closes exactly the named sessions, each with its own payload. */
  lemma {:induction false} FlushOne(cfg: Config, st: Assembly, ids: seq<string>, id: string)
    requires cfg.Valid() && UniqueIds(st.open) && NoDup(ids)
    ensures var (st', out) := Flush(cfg, st, ids);
      && UniqueIds(st'.open)
      && Find(st'.open, id) == (if id in ids then None else Find(st.open, id))
      && Of(out, id) == (if id in ids && Find(st.open, id).Some? then Emitted(cfg, Find(st.open, id).value) else [])
    decreases ids
  {
    if ids != [] {
      match Find(st.open, ids[0])
      case None => FlushOne(cfg, st, ids[1..], id);
      case Some(s) =>
        var gone := st.(open := Remove(st.open, ids[0]));
        var (st1, out) := Close(cfg, gone, s);
        RemoveUnique(st.open, ids[0]);
        FindRemove(st.open, ids[0], id);
        FlushOne(cfg, st1, ids[1..], id);
        var (st2, rest) := Flush(cfg, st1, ids[1..]);
        OfAppend(out, rest, id);
        CloseOf(cfg, gone, s, id);
    }
  }

  lemma {:induction false} FindSelf(open: seq<OpenSession>, s: OpenSession)
    requires UniqueIds(open) && s in open
    ensures Find(open, s.sessionId) == Some(s)
  {
    if open[0] != s {
      FindSelf(open[1..], s);
    }
  }

  /** After an idle flush no session has been silent for the timeout. */
  lemma NoneStaleAfterFlush(cfg: Config, st: Assembly, now: real, s: OpenSession)
    requires cfg.Valid() && UniqueIds(st.open) && s in Step(cfg, st, Idle(now)).0.open
    ensures now - s.lastSeen < cfg.idleFlush
  {
    hide Flush, Find, Stale;
    var ids := Stale(st.open, now, cfg.idleFlush);
    StaleIds(st.open, now, cfg.idleFlush);
    FlushOne(cfg, st, ids, s.sessionId);
    FindSelf(Step(cfg, st, Idle(now)).0.open, s);
  }

  lemma CloseOf(cfg: Config, st: Assembly, s: OpenSession, id: string)
    requires cfg.Valid()
    ensures var (st', out) := Close(cfg, st, s);
      && st'.open == st.open
      && Of(out, id) == if s.sessionId == id then Emitted(cfg, s) else []
  {}

  /** One step of the interleaved assembler is, seen from any session, one step of its reference. */
  lemma StepRefines(cfg: Config, st: Assembly, i: Input, id: string, h: OpenHistory)
    requires cfg.Valid() && UniqueIds(st.open) && Represents(cfg, st, id, h)
    ensures var (st', out) := Step(cfg, st, i);
      var (h', report) := RefStep(cfg, id, h, i);
      && UniqueIds(st'.open) && Represents(cfg, st', id, h') && Of(out, id) == report
  {
    match i
    case Line(text, now) =>
      if cfg.parse(text).Some? {
        FeedRefines(cfg, st, text, now, id, h);
      }
    case Idle(now) =>
      StaleIds(st.open, now, cfg.idleFlush);
      FlushOne(cfg, st, Stale(st.open, now, cfg.idleFlush), id);
    case Shutdown =>
      AllIds(st.open);
      FlushOne(cfg, st, Ids(st.open), id);
  }

  lemma FeedRefines(cfg: Config, st: Assembly, text: Bytes, now: real, id: string, h: OpenHistory)
    requires cfg.Valid() && UniqueIds(st.open) && Represents(cfg, st, id, h) && cfg.parse(text).Some?
    ensures var (st', out) := Feed(cfg, st, text, now);
      var (h', report) := RefStep(cfg, id, h, Line(text, now));
      && UniqueIds(st'.open) && Represents(cfg, st', id, h') && Of(out, id) == report
  {
    var e := cfg.parse(text).value;
    var s := Extend(cfg, Find(st.open, e.session), e, now);
    var open := Put(st.open, s);
    PutUnique(st.open, s);
    FindPut(st.open, s, id);
    if e.session == id {
      ExtendSummarizes(cfg, id, h, e, now);
    }
    if e.kind.Closed? {
      RemoveUnique(open, e.session);
      FindRemove(open, e.session, id);
      CloseOf(cfg, st.(open := Remove(open, e.session)), s, id);
    }
  }

  /** Main result: from the empty table, whatever the interleaving, the payloads of a session are
      the reference's, computed from its uncapped history. */
  lemma {:induction false} RunRefines(cfg: Config, st: Assembly, inputs: seq<Input>, id: string, h: OpenHistory)
    requires cfg.Valid() && UniqueIds(st.open) && Represents(cfg, st, id, h)
    ensures var (st', out) := Run(cfg, st, inputs);
      var (h', report) := RefRun(cfg, id, h, inputs);
      && UniqueIds(st'.open) && Represents(cfg, st', id, h') && Of(out, id) == report
  {
    if inputs != [] {
      var front, last := inputs[..|inputs| - 1], inputs[|inputs| - 1];
      RunRefines(cfg, st, front, id, h);
      var (st1, out) := Run(cfg, st, front);
      var (h1, _) := RefRun(cfg, id, h, front);
      StepRefines(cfg, st1, last, id, h1);
      OfAppend(out, Step(cfg, st1, last).1, id);
    }
  }
}
