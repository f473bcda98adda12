/** Reports as a function of the log text alone: what makes shipping a session twice harmless, and
    what makes a closed session certain to have been reported. */
module Redelivery {
  import opened Assembling
  import opened AssemblyTheorems
  import opened Lines
  import opened Seqs
  import opened Sessions
  import opened Wrappers

  predicate OfId(cfg: Config, text: Bytes, id: string) {
    cfg.parse(text).Some? && cfg.parse(text).value.session == id
  }

  /** The log lines among the inputs. */
  function Texts(inputs: seq<Input>): (r: seq<Bytes>)
    ensures |r| <= |inputs|
  {
    if inputs == [] then []
    else
      var last := inputs[|inputs| - 1];
      Texts(inputs[..|inputs| - 1]) + if last.Line? then [last.text] else []
  }

  lemma TextsPush(inputs: seq<Input>, last: Input)
    ensures Texts(inputs + [last]) == Texts(inputs) + if last.Line? then [last.text] else []
  {
    Halves(inputs, [last]);
  }

  // ---- A clock-free reference. ----

  /** The events of the session still open, and every payload, from the lines alone. */
  function TextRun(cfg: Config, id: string, texts: seq<Bytes>): (seq<Event>, seq<Envelope>)
    requires cfg.Valid()
  {
    if texts == [] then ([], [])
    else
      var (es, out) := TextRun(cfg, id, texts[..|texts| - 1]);
      var last := texts[|texts| - 1];
      if !OfId(cfg, last, id) then (es, out)
      else
        var grown := es + [cfg.parse(last).value];
        if grown[|grown| - 1].kind.Closed? then ([], out + Reported(cfg, id, History(grown, 0.0))) else (grown, out)
  }

  lemma TextStep(cfg: Config, id: string, texts: seq<Bytes>, t: Bytes)
    requires cfg.Valid()
    ensures var (es, out) := TextRun(cfg, id, texts);
      TextRun(cfg, id, texts + [t]) ==
      if !OfId(cfg, t, id) then (es, out)
      else
        var grown := es + [cfg.parse(t).value];
        if cfg.parse(t).value.kind.Closed? then ([], out + Reported(cfg, id, History(grown, 0.0))) else (grown, out)
  {
    Halves(texts, [t]);
  }

  /** No flush touches the session during the run. */
  ghost predicate Quiet(cfg: Config, id: string, inputs: seq<Input>)
    requires cfg.Valid()
  {
    inputs == []
    || (Quiet(cfg, id, inputs[..|inputs| - 1])
        && var h := RefRun(cfg, id, None, inputs[..|inputs| - 1]).0;
           match inputs[|inputs| - 1]
           case Line(_, _) => true
           case Idle(now) => h.Some? ==> now - h.value.lastSeen < cfg.idleFlush
           case Shutdown => h.None?)
  }

  /** A payload never depends on when its events arrived. */
  lemma ReportIgnoresClock(cfg: Config, id: string, es: seq<Event>, a: real, b: real)
    requires cfg.Valid() && es != []
    ensures Reported(cfg, id, History(es, a)) == Reported(cfg, id, History(es, b))
  {
    hide Fit;
    var kept := Keep(es, cfg.maxEvents);
    KeepOfKeep(es, cfg.maxEvents, cfg.maxEvents);
    FitIgnoresRest(cfg, Summary(cfg, id, History(es, a)), Summary(cfg, id, History(es, b)), kept, |es|);
  }

  /** Without a flush, what is shipped for a session depends on the lines only, not on the clock. */
  lemma {:induction false} QuietRunsAreClockFree(cfg: Config, id: string, inputs: seq<Input>)
    requires cfg.Valid() && Quiet(cfg, id, inputs)
    ensures var (h, out) := RefRun(cfg, id, None, inputs);
      var (es, reports) := TextRun(cfg, id, Texts(inputs));
      out == reports && es == (if h.Some? then h.value.events else [])
  {
    if inputs != [] {
      var front, last := inputs[..|inputs| - 1], inputs[|inputs| - 1];
      QuietRunsAreClockFree(cfg, id, front);
      var (h, out) := RefRun(cfg, id, None, front);
      Empty(out);
      Empty(Texts(front));
      if last.Line? {
        TextStep(cfg, id, Texts(front), last.text);
        LineIsClockFree(cfg, id, h, last.text, last.now);
      }
      hide TextRun, Reported;
    }
  }

  lemma LineIsClockFree(cfg: Config, id: string, h: OpenHistory, text: Bytes, now: real)
    requires cfg.Valid()
    ensures var es := if h.Some? then h.value.events else [];
      var (h', more) := RefStep(cfg, id, h, Line(text, now));
      if !OfId(cfg, text, id) then h' == h && more == []
      else
        var grown := es + [cfg.parse(text).value];
        if cfg.parse(text).value.kind.Closed?
        then h' == None && more == Reported(cfg, id, History(grown, 0.0))
        else h'.Some? && h'.value.events == grown && more == []
  {
    if OfId(cfg, text, id) {
      ReportIgnoresClock(cfg, id, (if h.Some? then h.value.events else []) + [cfg.parse(text).value], now, 0.0);
    }
  }

  /** Re-shipping: two processes that see the same lines of a session, at whatever times and among
      whatever other sessions, ship byte-identical payloads for it. */
  lemma ReshipsAreIdentical(cfg: Config, a: seq<Input>, b: seq<Input>, id: string)
    requires cfg.Valid() && Quiet(cfg, id, a) && Quiet(cfg, id, b)
    requires Texts(Own(cfg, a, id)) == Texts(Own(cfg, b, id))
    ensures Of(Run(cfg, EMPTY, a).1, id) == Of(Run(cfg, EMPTY, b).1, id)
  {
    RunRefines(cfg, EMPTY, a, id, None);
    RunRefines(cfg, EMPTY, b, id, None);
    QuietRunsAreClockFree(cfg, id, a);
    QuietRunsAreClockFree(cfg, id, b);
    TextRunOwn(cfg, id, a);
    TextRunOwn(cfg, id, b);
  }

  lemma {:induction false} TextRunOwn(cfg: Config, id: string, inputs: seq<Input>)
    requires cfg.Valid()
    ensures TextRun(cfg, id, Texts(inputs)) == TextRun(cfg, id, Texts(Own(cfg, inputs, id)))
  {
    if inputs != [] {
      var front, last := inputs[..|inputs| - 1], inputs[|inputs| - 1];
      TextRunOwn(cfg, id, front);
      var own := Own(cfg, front, id);
      if last.Line? {
        TextStep(cfg, id, Texts(front), last.text);
        TextStep(cfg, id, Texts(own), last.text);
      }
      TextsPush(own, last);
      hide TextRun;
      Empty(own);
      Empty(Texts(front));
      Empty(Texts(own));
    }
  }

  // ---- A closed session has been reported. ----

  /** `out` opens with a report that starts at event `e`. */
  ghost predicate StartsWith(out: seq<Envelope>, id: string, e: Event) {
    out != [] && out[0].sessionId == id && out[0].events != [] && out[0].events[0] == e
  }

  lemma ReportStarts(cfg: Config, id: string, h: History)
    requires cfg.Valid() && h.events != [] && h.events[0].kind.Connect?
    ensures StartsWith(Reported(cfg, id, h), id, h.events[0])
  {
    KeepOfKeep(h.events, cfg.maxEvents, cfg.maxEvents);
    KeepEnds(h.events, cfg.maxEvents);
    FitOfCapped(cfg, Summary(cfg, id, h), h.events);
  }

  lemma {:induction false} NothingYet(cfg: Config, id: string, inputs: seq<Input>)
    requires cfg.Valid()
    requires forall k :: 0 <= k < |Texts(inputs)| ==> !OfId(cfg, Texts(inputs)[k], id)
    ensures RefRun(cfg, id, None, inputs) == (None, [])
  {
    if inputs != [] {
      var front, last := inputs[..|inputs| - 1], inputs[|inputs| - 1];
      forall k | 0 <= k < |Texts(front)|
        ensures !OfId(cfg, Texts(front)[k], id)
      {
        assert Texts(inputs)[k] == Texts(front)[k];
      }
      NothingYet(cfg, id, front);
      if last.Line? {
        assert Texts(inputs)[|Texts(front)|] == last.text;
        assert !OfId(cfg, last.text, id);
      }
      var none: seq<Envelope> := [];
      Empty(none);
      assert RefRun(cfg, id, None, front).1 == none && RefStep(cfg, id, None, last) == (None, none);
    }
  }

  /** The first line of a session is at `a`, and it is its connect. */
  ghost predicate ConnectsAt(cfg: Config, texts: seq<Bytes>, id: string, a: nat) {
    && a < |texts| && OfId(cfg, texts[a], id) && cfg.parse(texts[a]).value.kind.Connect?
    && forall k :: 0 <= k < a ==> !OfId(cfg, texts[k], id)
  }

  /** From its connect on, a session is open from that event, or already reported from it. */
  lemma {:induction false} ConnectIsTracked(cfg: Config, id: string, inputs: seq<Input>, a: nat)
    requires cfg.Valid() && ConnectsAt(cfg, Texts(inputs), id, a)
    ensures var e := cfg.parse(Texts(inputs)[a]).value;
      var (h, out) := RefRun(cfg, id, None, inputs);
      (h.Some? && h.value.events[0] == e && out == []) || StartsWith(out, id, e)
  {
    var front, last := inputs[..|inputs| - 1], inputs[|inputs| - 1];
    var before := Texts(front);
    var e := cfg.parse(Texts(inputs)[a]).value;
    assert forall k :: 0 <= k < |before| ==> Texts(inputs)[k] == before[k];
    Rejoin(inputs);
    if a < |before| {
      hide RefRun, RefStep;
      ConnectIsTracked(cfg, id, front, a);
      TrackedStep(cfg, id, front, last, e);
    } else {
      TextsPush(front, last);
      hide Texts;
      NothingYet(cfg, id, front);
      RefPush(cfg, id, None, front, last);
      hide RefRun;
      var none: seq<Envelope> := [];
      Empty(none);
    }
  }

  lemma TrackedStep(cfg: Config, id: string, front: seq<Input>, last: Input, e: Event)
    requires cfg.Valid() && e.kind.Connect?
    requires var (h, out) := RefRun(cfg, id, None, front);
      (h.Some? && h.value.events[0] == e && out == []) || StartsWith(out, id, e)
    ensures var (h, out) := RefRun(cfg, id, None, front + [last]);
      (h.Some? && h.value.events[0] == e && out == []) || StartsWith(out, id, e)
    ensures last.Line? && OfId(cfg, last.text, id) && cfg.parse(last.text).value.kind.Closed? ==>
              StartsWith(RefRun(cfg, id, None, front + [last]).1, id, e)
  {
    RefPush(cfg, id, None, front, last);
    var (h, out) := RefRun(cfg, id, None, front);
    var (h', more) := RefStep(cfg, id, h, last);
    if out == [] {
      Empty(more);
      match last
      case Line(text, now) =>
        if OfId(cfg, text, id) {
          ReportStarts(cfg, id, History(h.value.events + [cfg.parse(text).value], now));
        }
      case Idle(now) => ReportStarts(cfg, id, h.value);
      case Shutdown => ReportStarts(cfg, id, h.value);
    }
  }

  /** Once the closed line has been fed, the session has been reported from its connect event,
      whatever flushes happened on the way. */
  lemma {:induction false} ClosedIsReported(cfg: Config, id: string, inputs: seq<Input>, a: nat, b: nat)
    requires cfg.Valid() && ConnectsAt(cfg, Texts(inputs), id, a)
    requires a < b < |Texts(inputs)| && OfId(cfg, Texts(inputs)[b], id)
            && cfg.parse(Texts(inputs)[b]).value.kind.Closed?
    ensures StartsWith(RefRun(cfg, id, None, inputs).1, id, cfg.parse(Texts(inputs)[a]).value)
  {
    var front, last := inputs[..|inputs| - 1], inputs[|inputs| - 1];
    var before := Texts(front);
    var e := cfg.parse(Texts(inputs)[a]).value;
    assert forall k :: 0 <= k < |before| ==> Texts(inputs)[k] == before[k];
    assert inputs == front + [last];
    if b < |before| {
      ClosedIsReported(cfg, id, front, a, b);
      RefPush(cfg, id, None, front, last);
    } else {
      ConnectIsTracked(cfg, id, front, a);
      TrackedStep(cfg, id, front, last, e);
    }
  }
}
