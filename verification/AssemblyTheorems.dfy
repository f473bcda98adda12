/** What the refinement buys: sessions do not interfere, malformed lines only count, and every
    payload has the promised shape. */
module AssemblyTheorems {
  import opened Assembling
  import opened Lines
  import opened Seqs
  import opened Sessions
  import opened Wrappers

  /** A session's own lines, with the clock-driven flushes left where they were. */
  function Own(cfg: Config, inputs: seq<Input>, id: string): seq<Input> {
    if inputs == [] then []
    else
      var last := inputs[|inputs| - 1];
      Own(cfg, inputs[..|inputs| - 1], id)
      + if last.Line? && (cfg.parse(last.text).None? || cfg.parse(last.text).value.session != id) then [] else [last]
  }

  lemma RefPush(cfg: Config, id: string, h: OpenHistory, inputs: seq<Input>, last: Input)
    requires cfg.Valid()
    ensures var (h1, out) := RefRun(cfg, id, h, inputs);
      var (h2, more) := RefStep(cfg, id, h1, last);
      RefRun(cfg, id, h, inputs + [last]) == (h2, out + more)
  {
    Halves(inputs, [last]);
  }

  lemma {:induction false} RefOwn(cfg: Config, id: string, h: OpenHistory, inputs: seq<Input>)
    requires cfg.Valid()
    ensures RefRun(cfg, id, h, Own(cfg, inputs, id)) == RefRun(cfg, id, h, inputs)
  {
    if inputs != [] {
      var front, last := inputs[..|inputs| - 1], inputs[|inputs| - 1];
      RefOwn(cfg, id, h, front);
      RefPush(cfg, id, h, Own(cfg, front, id), last);
      Empty(RefRun(cfg, id, h, front).1);
      Empty(Own(cfg, front, id));
    }
  }

  /** Of the lines, its own are exactly those that parse to its id; of the flushes, all. */
  lemma {:induction false} OwnAreItsLines(cfg: Config, inputs: seq<Input>, id: string, i: Input)
    ensures multiset(Own(cfg, inputs, id))[i]
            == if i.Line? && !(cfg.parse(i.text).Some? && cfg.parse(i.text).value.session == id) then 0
               else multiset(inputs)[i]
  {
    if inputs != [] {
      Rejoin(inputs);
      OwnAreItsLines(cfg, inputs[..|inputs| - 1], id, i);
    }
  }

  /** The payloads of a session in an interleaved log are those of its own lines alone. */
  lemma NonInterference(cfg: Config, inputs: seq<Input>, id: string)
    requires cfg.Valid()
    ensures Of(Run(cfg, EMPTY, inputs).1, id) == Of(Run(cfg, EMPTY, Own(cfg, inputs, id)).1, id)
  {
    RunRefines(cfg, EMPTY, inputs, id, None);
    RunRefines(cfg, EMPTY, Own(cfg, inputs, id), id, None);
    RefOwn(cfg, id, None, inputs);
  }

  function WellFormed(cfg: Config, inputs: seq<Input>): (r: seq<Input>)
    ensures |r| <= |inputs|
  {
    if inputs == [] then []
    else
      var last := inputs[|inputs| - 1];
      WellFormed(cfg, inputs[..|inputs| - 1]) + if last.Line? && cfg.parse(last.text).None? then [] else [last]
  }

  lemma RunPush(cfg: Config, st: Assembly, inputs: seq<Input>, last: Input)
    requires cfg.Valid()
    ensures var (st1, out) := Run(cfg, st, inputs);
      var (st2, more) := Step(cfg, st1, last);
      Run(cfg, st, inputs + [last]) == (st2, out + more)
  {
    Halves(inputs, [last]);
  }

  function MoreErrors(st: Assembly, n: nat): Assembly { st.(parseErrors := st.parseErrors + n) }

  /** The parse-error counter never influences a step. */
  lemma StepIgnoresErrors(cfg: Config, st: Assembly, i: Input, extra: nat)
    requires cfg.Valid()
    ensures Step(cfg, MoreErrors(st, extra), i) == (MoreErrors(Step(cfg, st, i).0, extra), Step(cfg, st, i).1)
  {
    match i
    case Line(text, now) =>
    case Idle(now) => FlushIgnoresErrors(cfg, st, Stale(st.open, now, cfg.idleFlush), extra);
    case Shutdown => FlushIgnoresErrors(cfg, st, Ids(st.open), extra);
  }

  lemma {:induction false} FlushIgnoresErrors(cfg: Config, st: Assembly, ids: seq<string>, extra: nat)
    requires cfg.Valid()
    ensures var (st', out) := Flush(cfg, st, ids);
      Flush(cfg, MoreErrors(st, extra), ids) == (MoreErrors(st', extra), out)
    decreases ids
  {
    if ids != [] {
      match Find(st.open, ids[0])
      case None => FlushIgnoresErrors(cfg, st, ids[1..], extra);
      case Some(s) =>
        FlushIgnoresErrors(cfg, Close(cfg, st.(open := Remove(st.open, ids[0])), s).0, ids[1..], extra);
    }
  }

  /** Malformed lines change nothing but the counter, which counts them. */
  lemma {:induction false} MalformedOnlyCount(cfg: Config, st: Assembly, inputs: seq<Input>)
    requires cfg.Valid()
    ensures var (st', out) := Run(cfg, st, WellFormed(cfg, inputs));
      Run(cfg, st, inputs) == (MoreErrors(st', |inputs| - |WellFormed(cfg, inputs)|), out)
  {
    hide Run, Step, WellFormed;
    if inputs == [] {
      NothingRun(cfg, st);
    } else {
      var front, last := inputs[..|inputs| - 1], inputs[|inputs| - 1];
      WellFormedPush(cfg, front, last);
      Rejoin(inputs);
      var kept := WellFormed(cfg, front);
      var (st2, out) := Run(cfg, st, kept);
      MalformedOnlyCount(cfg, st, front);
      RunPush(cfg, st, front, last);
      if last.Line? && cfg.parse(last.text).None? {
        MalformedStep(cfg, st2, last, |front| - |kept|);
        Empty(kept);
        Empty(out);
      } else {
        StepIgnoresErrors(cfg, st2, last, |front| - |kept|);
        RunPush(cfg, st, kept, last);
      }
    }
  }

  lemma NothingRun(cfg: Config, st: Assembly)
    requires cfg.Valid()
    ensures Run(cfg, st, []) == (st, []) && WellFormed(cfg, []) == [] && MoreErrors(st, 0) == st
  {}

  lemma WellFormedPush(cfg: Config, inputs: seq<Input>, last: Input)
    ensures WellFormed(cfg, inputs + [last])
         == WellFormed(cfg, inputs) + if last.Line? && cfg.parse(last.text).None? then [] else [last]
  {
    Halves(inputs, [last]);
  }

  lemma MalformedStep(cfg: Config, st: Assembly, last: Input, errors: nat)
    requires cfg.Valid() && last.Line? && cfg.parse(last.text).None?
    ensures Step(cfg, MoreErrors(st, errors), last) == (MoreErrors(st, errors + 1), [])
  {}

  /** The same session, had nothing been dropped while it was open. */
  function Uncapped(id: string, h: History): OpenSession
    requires h.events != []
  {
    OpenSession(id, h.events[0].srcIp, h.events[0].sensor, h.events, h.lastSeen, h.events[0].kind.Connect?, 0)
  }

  /** Dropping events as they arrive ships the payload that truncating at the end would. */
  lemma CapOnArrivalIsCapAtEnd(cfg: Config, id: string, h: History)
    requires cfg.Valid() && h.events != []
    ensures Build(cfg, Summary(cfg, id, h)) == Build(cfg, Uncapped(id, h))
  {
    hide Fit;
    var a, b := Summary(cfg, id, h), Uncapped(id, h);
    KeepOfKeep(h.events, cfg.maxEvents, cfg.maxEvents);
    FitIgnoresRest(cfg, a, b, Keep(h.events, cfg.maxEvents), |h.events|);
  }

  lemma {:induction false} FitIgnoresRest(cfg: Config, a: OpenSession, b: OpenSession, events: seq<Event>, total: nat)
    requires |events| <= total && a.sessionId == b.sessionId && a.srcIp == b.srcIp && a.sensor == b.sensor
    ensures Fit(cfg, a, events, total) == Fit(cfg, b, events, total)
    decreases |events|
  {
    if |events| > 2 {
      FitIgnoresRest(cfg, a, b, Keep(events, Halved(|events|)), total);
    }
  }

  /** The promised shape of a payload, against the whole history it reports. */
  ghost predicate Shaped(cfg: Config, payload: Envelope, es: seq<Event>) {
    && es != [] && payload.events != []
    && payload.events[0] == es[0] && es[0].kind.Connect?
    && payload.events[|payload.events| - 1] == es[|es| - 1]
    && |payload.events| <= cfg.maxEvents && payload.events == Keep(es, |payload.events|)
    && |payload.events| + (if payload.truncated.Some? then payload.truncated.value else 0) == |es|
    && (payload.truncated.Some? <==> |payload.events| < |es|)
    && (cfg.size(payload) <= cfg.maxPayloadBytes || |payload.events| <= 2)
  }

  /** What cap 2 leaves of a capped history. */
  lemma FitOfCapped(cfg: Config, s: OpenSession, es: seq<Event>)
    requires cfg.Valid() && es != []
    ensures var base := Keep(es, cfg.maxEvents);
      |base| <= |es| &&
      var kept := Fit(cfg, s, base, |es|);
      && kept != [] && kept[0] == es[0] && kept[|kept| - 1] == es[|es| - 1]
      && |kept| <= cfg.maxEvents && kept == Keep(es, |kept|)
      && (!TooBig(cfg, s, kept, |es|) || |kept| <= 2)
  {
    KeepEnds(es, cfg.maxEvents);
    var base := Keep(es, cfg.maxEvents);
    var k := FitIsWidestThatFits(cfg, s, base, |es|);
    var m := Widths(|base|)[k];
    var kept := Fit(cfg, s, base, |es|);
    if m == 1 {
      WidthsAboveOne(|base|, k);
    }
    assert kept == Keep(es, m) by {
      hide Fit, Widths;
    }
    KeepEnds(es, m);
  }

  /** The chain never reaches one event unless it started there. */
  lemma {:induction false} WidthsAboveOne(n: nat, k: nat)
    requires k < |Widths(n)| && Widths(n)[k] == 1
    ensures n == 1
    decreases n
  {
    if n > 2 {
      WidthsAboveOne(Halved(n), k - 1);
    }
  }

  /** Every report of a history is a prefix of it plus its last event, counts what it leaves out,
      and fits, or is down to two events. */
  lemma ReportsAreShaped(cfg: Config, id: string, h: History)
    requires cfg.Valid() && cfg.BlockCosts() && h.events != []
    ensures forall payload <- Reported(cfg, id, h) :: payload.sessionId == id && Shaped(cfg, payload, h.events)
    ensures forall payload <- Reported(cfg, id, h) ::
              payload.srcIp == h.events[0].srcIp && payload.sensor == h.events[0].sensor
  {
    if h.events[0].kind.Connect? {
      KeepOfKeep(h.events, cfg.maxEvents, cfg.maxEvents);
      KeepEnds(h.events, cfg.maxEvents);
      BuildIsShaped(cfg, Summary(cfg, id, h), h.events);
    }
  }

  lemma BuildIsShaped(cfg: Config, s: OpenSession, es: seq<Event>)
    requires cfg.Valid() && cfg.BlockCosts() && es != [] && es[0].kind.Connect?
    requires Keep(s.events, cfg.maxEvents) == Keep(es, cfg.maxEvents) && |s.events| + s.droppedEvents == |es|
    ensures Shaped(cfg, Build(cfg, s), es)
  {
    hide Fit, Keep, TooBig;
    FitOfCapped(cfg, s, es);
    BuildIsNoLonger(cfg, s, Fit(cfg, s, Keep(es, cfg.maxEvents), |es|), |es|);
  }

  lemma BuildIsNoLonger(cfg: Config, s: OpenSession, kept: seq<Event>, total: nat)
    requires cfg.Valid() && cfg.BlockCosts() && |kept| <= total
    requires !TooBig(cfg, s, kept, total) || |kept| <= 2
    ensures var payload := Shell(s, kept, if total > |kept| then Some(total - |kept|) else None);
      cfg.size(payload) <= cfg.maxPayloadBytes || |kept| <= 2
  {
    if |kept| == total {
      var full := Shell(s, kept, Some(0));
      assert cfg.size(full.(truncated := None)) <= cfg.size(full);
    }
  }

  lemma KeepEnds<T>(es: seq<T>, m: nat)
    requires es != [] && m >= 1 && (m == 1 ==> |es| == 1)
    ensures var kept := Keep(es, m);
      kept != [] && kept[0] == es[0] && kept[|kept| - 1] == es[|es| - 1] && |kept| == if |es| <= m then |es| else m
  {}
}
