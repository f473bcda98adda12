/** Session assembly on values: the insertion-ordered table of open sessions, the two caps, and the
    per-session reference the interleaved assembler is proved to refine. */
module Sessions {
  import opened Lines
  import opened Wrappers

  datatype Kind = Connect | Closed | Other

  datatype Event = Event(kind: Kind, session: string, srcIp: string, sensor: string, timestamp: int, body: string)

  datatype OpenSession = OpenSession(
    sessionId: string, srcIp: string, sensor: string, events: seq<Event>,
    lastSeen: real, hasConnect: bool, droppedEvents: nat)

  /** What is serialized: `truncated` is the optional shipper block. */
  datatype Envelope = Envelope(sessionId: string, srcIp: string, sensor: string, events: seq<Event>,
                               truncated: Option<nat>)

  /** Parsing and the serialized size are parameters: any parser, any size. */
  datatype Config = Config(
    idleFlush: real, maxEvents: nat, maxPayloadBytes: nat,
    parse: Bytes -> Option<Event>, size: Envelope -> nat)
  {
    predicate Valid() { maxEvents >= 2 }

    /** Taking the shipper block out of an envelope never makes it longer. */
    ghost predicate BlockCosts() {
      forall e: Envelope :: size(e.(truncated := None)) <= size(e)
    }
  }

  datatype Assembly = Assembly(open: seq<OpenSession>, parseErrors: nat, droppedNoConnect: nat, truncatedSessions: nat)

  datatype Input = Line(text: Bytes, now: real) | Idle(now: real) | Shutdown

  const EMPTY := Assembly([], 0, 0, 0)

  // ---- The table of open sessions: an insertion-ordered dictionary. ----

  ghost predicate UniqueIds(open: seq<OpenSession>) {
    open == [] || (Find(open[1..], open[0].sessionId).None? && UniqueIds(open[1..]))
  }

  function Find(open: seq<OpenSession>, id: string): (r: Option<OpenSession>)
    ensures r.Some? ==> r.value.sessionId == id && r.value in open
    ensures r.None? ==> forall s <- open :: s.sessionId != id
  {
    if open == [] then None
    else if open[0].sessionId == id then Some(open[0])
    else Find(open[1..], id)
  }

  /** Overwrite in place, or append a new key. */
  function Put(open: seq<OpenSession>, s: OpenSession): seq<OpenSession> {
    if open == [] then [s]
    else if open[0].sessionId == s.sessionId then [s] + open[1..]
    else [open[0]] + Put(open[1..], s)
  }

  function Remove(open: seq<OpenSession>, id: string): (r: seq<OpenSession>)
    ensures forall s <- r :: s in open
  {
    if open == [] then []
    else if open[0].sessionId == id then open[1..]
    else [open[0]] + Remove(open[1..], id)
  }

  lemma {:induction false} FindPut(open: seq<OpenSession>, s: OpenSession, id: string)
    ensures Find(Put(open, s), id) == if id == s.sessionId then Some(s) else Find(open, id)
  {
    if open != [] && open[0].sessionId != s.sessionId {
      FindPut(open[1..], s, id);
    }
  }

  lemma {:induction false} FindRemove(open: seq<OpenSession>, gone: string, id: string)
    requires UniqueIds(open)
    ensures Find(Remove(open, gone), id) == if id == gone then None else Find(open, id)
  {
    if open != [] && open[0].sessionId != gone {
      FindRemove(open[1..], gone, id);
    }
  }

  lemma {:induction false} PutUnique(open: seq<OpenSession>, s: OpenSession)
    requires UniqueIds(open)
    ensures UniqueIds(Put(open, s))
  {
    if open != [] && open[0].sessionId != s.sessionId {
      PutUnique(open[1..], s);
      FindPut(open[1..], s, open[0].sessionId);
    }
  }

  lemma {:induction false} RemoveUnique(open: seq<OpenSession>, id: string)
    requires UniqueIds(open)
    ensures UniqueIds(Remove(open, id))
  {
    if open != [] && open[0].sessionId != id {
      RemoveUnique(open[1..], id);
      FindRemove(open[1..], id, open[0].sessionId);
    }
  }

  // ---- The caps. ----

  /** The first `m - 1` events plus the newest one: what truncating a whole list to `m` keeps. */
  function Keep<T>(es: seq<T>, m: nat): seq<T>
    requires m >= 1
  {
    if |es| <= m then es else es[..m - 1] + [es[|es| - 1]]
  }

  function Halved(n: nat): nat { if n / 2 > 2 then n / 2 else 2 }

  /** Half, but never fewer than two. */
  lemma HalvedIsHalf(n: nat)
    ensures 2 <= Halved(n) && (Halved(n) > 2 ==> 2 * Halved(n) <= n < 2 * Halved(n) + 2) && (n >= 6 ==> Halved(n) > 2)
  {}

  function Shell(s: OpenSession, events: seq<Event>, truncated: Option<nat>): Envelope {
    Envelope(s.sessionId, s.srcIp, s.sensor, events, truncated)
  }

  /** Cap 2: halve until the serialized envelope fits or only two events remain. */
  function Fit(cfg: Config, s: OpenSession, events: seq<Event>, total: nat): (r: seq<Event>)
    requires |events| <= total
    ensures |r| <= |events|
    decreases |events|
  {
    if cfg.size(Shell(s, events, Some(total - |events|))) <= cfg.maxPayloadBytes || |events| <= 2 then events
    else Fit(cfg, s, Keep(events, Halved(|events|)), total)
  }

  function Build(cfg: Config, s: OpenSession): Envelope
    requires cfg.Valid()
  {
    var total := |s.events| + s.droppedEvents;
    var events := Fit(cfg, s, Keep(s.events, cfg.maxEvents), total);
    Shell(s, events, if total > |events| then Some(total - |events|) else None)
  }

  /** The widths cap 2 tries, widest first. */
  function Widths(n: nat): (w: seq<nat>)
    ensures |w| >= 1 && w[0] == n
    decreases n
  {
    if n <= 2 then [n] else [n] + Widths(Halved(n))
  }

  lemma KeepOfKeep<T>(es: seq<T>, a: nat, b: nat)
    requires 1 <= b <= a
    ensures Keep(Keep(es, a), b) == Keep(es, b)
  {}

  /** Truncating as events arrive keeps exactly what truncating the whole list would. */
  lemma KeepGrow<T>(es: seq<T>, e: T, m: nat)
    requires m >= 2
    ensures var grown := Keep(es, m) + [e];
      Keep(es + [e], m) == if |grown| > m then grown[..|grown| - 2] + [grown[|grown| - 1]] else grown
  {}

  /** Cap 2 settles on the widest entry of the halving chain whose envelope fits, or on the last. */
  lemma {:induction false} FitIsWidestThatFits(cfg: Config, s: OpenSession, events: seq<Event>, total: nat)
    returns (k: nat)
    requires 1 <= |events| <= total
    ensures k < |Widths(|events|)|
    ensures forall j :: 0 <= j <= k ==> 1 <= Widths(|events|)[j] <= |events|
    ensures Fit(cfg, s, events, total) == Keep(events, Widths(|events|)[k])
    ensures forall j :: 0 <= j < k ==> TooBig(cfg, s, Keep(events, Widths(|events|)[j]), total)
    ensures !TooBig(cfg, s, Fit(cfg, s, events, total), total) || |Fit(cfg, s, events, total)| <= 2
    decreases |events|
  {
    if !TooBig(cfg, s, events, total) || |events| <= 2 {
      k := 0;
    } else {
      var half := Halved(|events|);
      WidthsStep(|events|);
      WidthsShrink(half);
      FitStep(cfg, s, events, total);
      hide Fit, Widths, TooBig, Keep, Halved;
      var rest := FitIsWidestThatFits(cfg, s, Keep(events, half), total);
      k := rest + 1;
      forall j | 0 <= j < k
        ensures TooBig(cfg, s, Keep(events, Widths(|events|)[j]), total)
      {
        if j > 0 {
          KeepOfKeep(events, half, Widths(half)[j - 1]);
        } else {
          KeepAll(events);
        }
      }
      KeepOfKeep(events, half, Widths(half)[rest]);
    }
  }

  lemma FitStep(cfg: Config, s: OpenSession, events: seq<Event>, total: nat)
    requires 2 < |events| <= total && TooBig(cfg, s, events, total)
    ensures |Keep(events, Halved(|events|))| == Halved(|events|) < |events|
    ensures Fit(cfg, s, events, total) == Fit(cfg, s, Keep(events, Halved(|events|)), total)
  {}

  lemma KeepAll<T>(es: seq<T>)
    requires es != []
    ensures Keep(es, |es|) == es
  {}

  lemma WidthsStep(n: nat)
    requires n > 2
    ensures |Widths(n)| == 1 + |Widths(Halved(n))| && Widths(n)[0] == n
    ensures forall j :: 0 < j < |Widths(n)| ==> Widths(n)[j] == Widths(Halved(n))[j - 1]
    ensures 2 <= Halved(n) < n
  {}

  predicate TooBig(cfg: Config, s: OpenSession, events: seq<Event>, total: nat)
    requires |events| <= total
  {
    cfg.size(Shell(s, events, Some(total - |events|))) > cfg.maxPayloadBytes
  }

  lemma {:induction false} WidthsShrink(n: nat)
    ensures forall j :: 0 <= j < |Widths(n)| ==> Widths(n)[j] <= n && (n >= 1 ==> Widths(n)[j] >= 1)
    decreases n
  {
    if n > 2 { WidthsShrink(Halved(n)); }
  }
}
