/** The session assembler as the object it is: a table of open sessions and three counters updated
    in place, each method tied to a step of `Assembling`. Clock readings are arguments. */
module Assembler {
  import opened Assembling
  import opened Lines
  import opened Seqs
  import opened Sessions
  import opened Wrappers

  lemma FitLoop(cfg: Config, s: OpenSession, events: seq<Event>, total: nat)
    requires |events| <= total
    ensures Fit(cfg, s, events, total)
            == if cfg.size(Shell(s, events, Some(total - |events|))) > cfg.maxPayloadBytes && |events| > 2
               then Fit(cfg, s, Keep(events, Halved(|events|)), total) else events
  {}

  class SessionAssembler {
    const cfg: Config
    var sessions: seq<OpenSession>
    var parseErrors: nat
    var droppedNoConnect: nat
    var truncatedSessions: nat

    function State(): Assembly
      reads this
    {
      Assembly(sessions, parseErrors, droppedNoConnect, truncatedSessions)
    }

    ghost predicate Valid()
      reads this
    {
      cfg.Valid() && UniqueIds(sessions)
    }

    constructor (cfg: Config)
      requires cfg.Valid()
      ensures Valid() && this.cfg == cfg && State() == EMPTY
    {
      this.cfg := cfg;
      sessions, parseErrors, droppedNoConnect, truncatedSessions := [], 0, 0, 0;
    }

    /** Fold one raw line into its session; a payload comes out when the line closes it. */
    method FeedLine(line: Bytes, now: real) returns (out: seq<Envelope>)
      requires Valid()
      modifies this
      ensures Valid() && (State(), out) == Step(cfg, old(State()), Line(line, now))
    {
      hide Find, Put, Remove, Build, UniqueIds;
      var event := cfg.parse(line);
      if event.None? {
        parseErrors := parseErrors + 1;
        return [];
      }
      var e := event.value;
      var prior := Find(sessions, e.session);
      var session := if prior.Some? then prior.value
                     else OpenSession(e.session, e.srcIp, e.sensor, [], now, e.kind.Connect?, 0);
      session := session.(events := session.events + [e], lastSeen := now);
      if |session.events| > cfg.maxEvents {
        var n := |session.events|;
        session := session.(events := session.events[..n - 2] + [session.events[n - 1]],
                            droppedEvents := session.droppedEvents + 1);
      }
      PutUnique(sessions, session);
      sessions := Put(sessions, session);
      if !e.kind.Closed? {
        return [];
      }
      RemoveUnique(sessions, e.session);
      sessions := Remove(sessions, e.session);
      if !session.hasConnect {
        droppedNoConnect := droppedNoConnect + 1;
        return [];
      }
      var payload := BuildPayload(session);
      out := [payload];
    }

    /** Ship or drop every session idle for at least the timeout. */
    method FlushIdle(now: real) returns (out: seq<Envelope>)
      requires Valid()
      modifies this
      ensures Valid() && (State(), out) == Step(cfg, old(State()), Idle(now))
      ensures forall s :: s in sessions ==> now - s.lastSeen < cfg.idleFlush
    {
      StaleIds(sessions, now, cfg.idleFlush);
      out := FlushSessions(Stale(sessions, now, cfg.idleFlush));
      forall s | s in sessions
        ensures now - s.lastSeen < cfg.idleFlush
      {
        NoneStaleAfterFlush(cfg, old(State()), now, s);
      }
    }

    /** The shutdown flush: ship or drop every open session. */
    method FlushAll() returns (out: seq<Envelope>)
      requires Valid()
      modifies this
      ensures Valid() && (State(), out) == Step(cfg, old(State()), Shutdown)
    {
      AllIds(sessions);
      out := FlushSessions(Ids(sessions));
    }

    method FlushSessions(ids: seq<string>) returns (payloads: seq<Envelope>)
      requires Valid() && NoDup(ids) && forall id :: id in ids ==> Find(sessions, id).Some?
      modifies this
      ensures Valid() && (State(), payloads) == Flush(cfg, old(State()), ids)
    {
      hide Build, Find, Remove;
      payloads := [];
      var left := ids;
      Empty(Flush(cfg, State(), ids).1);
      while left != []
        invariant Valid() && NoDup(left) && forall id :: id in left ==> Find(sessions, id).Some?
        invariant Flush(cfg, old(State()), ids)
                  == (Flush(cfg, State(), left).0, payloads + Flush(cfg, State(), left).1)
        decreases left
      {
        var id := left[0];
        var session := Find(sessions, id).value;
        assert id in left;
        RemoveUnique(sessions, id);
        forall other | other in left[1..]
          ensures Find(Remove(sessions, id), other).Some?
        {
          FindRemove(sessions, id, other);
        }
        ghost var rest := Flush(cfg, State(), left);
        ghost var before := payloads;
        sessions := Remove(sessions, id);
        left := left[1..];
        if session.hasConnect {
          var payload := BuildPayload(session);
          payloads := payloads + [payload];
          Assoc(before, [payload], Flush(cfg, State(), left).1);
        } else {
          droppedNoConnect := droppedNoConnect + 1;
          Empty(Flush(cfg, State(), left).1);
        }
      }
      Empty(payloads);
    }

    /** Serialize a session under both caps. */
    method BuildPayload(session: OpenSession) returns (payload: Envelope)
      requires cfg.Valid()
      modifies this`truncatedSessions
      ensures payload == Build(cfg, session)
      ensures payload.sessionId == session.sessionId && payload.srcIp == session.srcIp
              && payload.sensor == session.sensor
      ensures truncatedSessions == old(truncatedSessions) + if payload.truncated.Some? then 1 else 0
    {
      hide Fit, TooBig;
      var total := |session.events| + session.droppedEvents;
      var events := session.events;
      if |events| > cfg.maxEvents {
        events := events[..cfg.maxEvents - 1] + [events[|events| - 1]];
      }
      var envelope := Shell(session, events, Some(total - |events|));
      while cfg.size(envelope) > cfg.maxPayloadBytes && |events| > 2
        invariant truncatedSessions == old(truncatedSessions)
        invariant |events| <= total && envelope == Shell(session, events, Some(total - |events|))
        invariant Fit(cfg, session, events, total) == Fit(cfg, session, Keep(session.events, cfg.maxEvents), total)
        decreases |events|
      {
        FitLoop(cfg, session, events, total);
        var half := if |events| / 2 > 2 then |events| / 2 else 2;
        assert Keep(events, half) == events[..half - 1] + [events[|events| - 1]];
        events := events[..half - 1] + [events[|events| - 1]];
        envelope := envelope.(events := events, truncated := Some(total - |events|));
      }
      FitLoop(cfg, session, events, total);
      if envelope.truncated.value > 0 {
        truncatedSessions := truncatedSessions + 1;
      } else {
        envelope := envelope.(truncated := None);
      }
      payload := envelope;
    }
  }
}
