/** A shipped payload at the API's door: the stable sort by timestamp, the connect-first check, and the
    fingerprint that makes a session one alert row however often it is shipped. */
module Alerts {
  import opened Assembling
  import opened AssemblyTheorems
  import opened Lifecycle
  import opened LifecycleSystem
  import opened LifecycleTheorems
  import opened Seqs
  import opened Sessions
  import opened Wrappers

  // ---- Stable sort by timestamp. ----

  ghost predicate InOrder(es: seq<Event>) {
    forall i, j :: 0 <= i < j < |es| ==> es[i].timestamp <= es[j].timestamp
  }

  /** The events of one instant, in the order given. */
  function At(es: seq<Event>, t: int): seq<Event> {
    if es == [] then []
    else At(es[..|es| - 1], t) + if es[|es| - 1].timestamp == t then [es[|es| - 1]] else []
  }

  /** Put a later arrival behind everything that is not later than it. */
  function InsertLast(es: seq<Event>, e: Event): seq<Event> {
    if es == [] || es[|es| - 1].timestamp <= e.timestamp then es + [e]
    else InsertLast(es[..|es| - 1], e) + [es[|es| - 1]]
  }

  function Sorted(es: seq<Event>): seq<Event> {
    if es == [] then [] else InsertLast(Sorted(es[..|es| - 1]), es[|es| - 1])
  }

  lemma AtPush(es: seq<Event>, e: Event, t: int)
    ensures At(es + [e], t) == At(es, t) + if e.timestamp == t then [e] else []
  {
    Halves(es, [e]);
  }

  lemma {:induction false} InsertInOrder(es: seq<Event>, e: Event)
    requires InOrder(es)
    ensures InOrder(InsertLast(es, e)) && |InsertLast(es, e)| == |es| + 1
    ensures forall x <- InsertLast(es, e) :: x == e || x in es
  {
    if es != [] && es[|es| - 1].timestamp > e.timestamp {
      InsertInOrder(es[..|es| - 1], e);
      var front := InsertLast(es[..|es| - 1], e);
      forall i | 0 <= i < |front|
        ensures front[i].timestamp <= es[|es| - 1].timestamp
      {
        assert front[i] in front;
      }
    }
  }

  lemma {:induction false} NothingAt(es: seq<Event>, t: int)
    requires forall i :: 0 <= i < |es| ==> es[i].timestamp != t
    ensures At(es, t) == []
  {
    if es != [] {
      NothingAt(es[..|es| - 1], t);
    }
  }

  lemma {:induction false} InsertIsStable(es: seq<Event>, e: Event, t: int)
    requires InOrder(es)
    ensures At(InsertLast(es, e), t) == At(es, t) + if e.timestamp == t then [e] else []
  {
    if es == [] || es[|es| - 1].timestamp <= e.timestamp {
      AtPush(es, e, t);
    } else {
      var front, last := es[..|es| - 1], es[|es| - 1];
      InsertIsStable(front, e, t);
      AtPush(InsertLast(front, e), last, t);
      hide InsertLast;
      Empty(At(front, t));
      Empty(At(front, t) + [e]);
    }
  }

  /** The sort is in order and keeps, at every instant, the events of that instant as they came. */
  lemma {:induction false} SortIsStable(es: seq<Event>)
    ensures InOrder(Sorted(es)) && |Sorted(es)| == |es|
    ensures forall t :: At(Sorted(es), t) == At(es, t)
  {
    if es != [] {
      var front, last := es[..|es| - 1], es[|es| - 1];
      SortIsStable(front);
      InsertInOrder(Sorted(front), last);
      forall t
        ensures At(Sorted(es), t) == At(es, t)
      {
        InsertIsStable(Sorted(front), last, t);
      }
    }
  }

  /** And that says everything about it: two lists in order that agree at every instant are equal. */
  lemma {:induction false} StableSortIsUnique(a: seq<Event>, b: seq<Event>)
    requires InOrder(a) && InOrder(b) && forall t :: At(a, t) == At(b, t)
    ensures a == b
    decreases |a| + |b|
  {
    if a == [] || b == [] {
      SameEmptiness(a, b);
      SameEmptiness(b, a);
    } else {
      LastAgrees(a, b);
      LastAgrees(b, a);
      var t := a[|a| - 1].timestamp;
      var x, y := a[..|a| - 1], b[..|b| - 1];
      assert a[|a| - 1] == b[|b| - 1] by {
        assert At(a, t)[|At(a, t)| - 1] == a[|a| - 1] && At(b, t)[|At(b, t)| - 1] == b[|b| - 1];
      }
      forall u
        ensures At(x, u) == At(y, u)
      {
        CancelLast(At(x, u), At(y, u), At(a, u), At(b, u), a[|a| - 1], u == t);
      }
      StableSortIsUnique(x, y);
      assert a == x + [a[|a| - 1]] && b == y + [b[|b| - 1]];
    }
  }

  lemma SameEmptiness(a: seq<Event>, b: seq<Event>)
    requires forall t :: At(a, t) == At(b, t)
    ensures a == [] ==> b == []
  {
    if b != [] {
      assert At(b, b[|b| - 1].timestamp) != [];
    }
  }

  lemma CancelLast(x: seq<Event>, y: seq<Event>, a: seq<Event>, b: seq<Event>, e: Event, added: bool)
    requires a == b && a == x + (if added then [e] else []) && b == y + if added then [e] else []
    ensures x == y
  {
    assert a[..|x|] == x && b[..|y|] == y;
  }

  /** The last instant of one is an instant of the other. */
  lemma LastAgrees(a: seq<Event>, b: seq<Event>)
    requires InOrder(a) && InOrder(b) && a != [] && b != [] && forall t :: At(a, t) == At(b, t)
    ensures a[|a| - 1].timestamp <= b[|b| - 1].timestamp
  {
    var t := a[|a| - 1].timestamp;
    assert At(a, t) != [];
    if b[|b| - 1].timestamp < t {
      NothingAt(b, t);
    }
  }

  lemma {:induction false} SortOfOrdered(es: seq<Event>)
    requires InOrder(es)
    ensures Sorted(es) == es
  {
    if es != [] {
      var front, last := es[..|es| - 1], es[|es| - 1];
      SortOfOrdered(front);
      Rejoin(es);
      assert InsertLast(front, last) == front + [last];
    }
  }

  /** The earliest event, the first of them on a tie. */
  ghost predicate FirstEarliest(es: seq<Event>, k: nat) {
    && k < |es|
    && (forall i :: 0 <= i < k ==> es[k].timestamp < es[i].timestamp)
    && (forall i :: k < i < |es| ==> es[k].timestamp <= es[i].timestamp)
  }

  lemma {:induction false} SortStartsAtEarliest(es: seq<Event>) returns (k: nat)
    requires es != []
    ensures FirstEarliest(es, k) && Sorted(es) != [] && Sorted(es)[0] == es[k]
  {
    hide Sorted, InsertLast, InOrder, At;
    var front, last := es[..|es| - 1], es[|es| - 1];
    SortStep(front, last);
    assert es == front + [last];
    if front == [] {
      k := 0;
    } else {
      k := SortStartsAtEarliest(front);
      if last.timestamp < front[k].timestamp {
        k := |front|;
      }
    }
  }

  /** How one more event changes the head of the sorted list. */
  lemma SortStep(front: seq<Event>, last: Event)
    ensures Sorted(front + [last]) != [] && (front != [] ==> Sorted(front) != [])
    ensures Sorted(front + [last])[0]
         == if front == [] || last.timestamp < Sorted(front)[0].timestamp then last else Sorted(front)[0]
  {
    Halves(front, [last]);
    SortIsStable(front);
    if front != [] {
      InsertFront(Sorted(front), last);
    }
  }

  lemma {:induction false} InsertFront(es: seq<Event>, e: Event)
    requires InOrder(es) && es != []
    ensures InsertLast(es, e) != [] && InsertLast(es, e)[0] == if e.timestamp < es[0].timestamp then e else es[0]
  {
    if es[|es| - 1].timestamp > e.timestamp && |es| > 1 {
      InsertFront(es[..|es| - 1], e);
    }
  }

  // ---- The alert. ----

  datatype SessionAlert = SessionAlert(sessionId: string, srcIp: string, sensor: string, events: seq<Event>) {
    function ConnectTime(): int
      requires events != []
    {
      events[0].timestamp
    }
  }

  datatype Invalid = NoEvents | ConnectNotFirst

  function Validate(p: Envelope): Result<SessionAlert, Invalid> {
    if p.events == [] then Failure(NoEvents)
    else
      var sorted := Sorted(p.events);
      if sorted == [] || !sorted[0].kind.Connect? then Failure(ConnectNotFirst)
      else Success(SessionAlert(p.sessionId, p.srcIp, p.sensor, sorted))
  }

  /** A payload is accepted exactly when its earliest event, the first of them on a tie, is a connect. */
  lemma AcceptedIff(p: Envelope)
    ensures Validate(p).Success? <==> exists k: nat :: FirstEarliest(p.events, k) && p.events[k].kind.Connect?
    ensures Validate(p) == Failure(NoEvents) <==> p.events == []
  {
    if p.events != [] {
      var k := SortStartsAtEarliest(p.events);
      assert forall j: nat :: FirstEarliest(p.events, j) ==> j == k;
    }
  }

  /** The hash and the instant's text: any injective hash, and any injective text without a bar. */
  datatype Naming = Naming(hash: string -> string, iso: int -> string) {
    ghost predicate Valid() {
      && (forall a, b :: hash(a) == hash(b) ==> a == b)
      && (forall a, b :: iso(a) == iso(b) ==> a == b)
      && (forall t :: '|' !in iso(t))
    }
  }

  function Key(n: Naming, sessionId: string, connectTime: int): string {
    "cowrie" + "|" + sessionId + "|" + n.iso(connectTime)
  }

  function Fingerprint(n: Naming, a: SessionAlert): string
    requires a.events != []
  {
    n.hash(Key(n, a.sessionId, a.ConnectTime()))
  }

  /** Two alerts share a fingerprint exactly when they share the session id and the connect time,
      whatever bars the id contains. */
  lemma FingerprintIsIdentity(n: Naming, a: SessionAlert, b: SessionAlert)
    requires n.Valid() && a.events != [] && b.events != []
    ensures Fingerprint(n, a) == Fingerprint(n, b) <==> a.sessionId == b.sessionId && a.ConnectTime() == b.ConnectTime()
  {
    var s, t := n.iso(a.ConnectTime()), n.iso(b.ConnectTime());
    if Fingerprint(n, a) == Fingerprint(n, b) {
      LastBar("cowrie" + "|" + a.sessionId, s, "cowrie" + "|" + b.sessionId, t);
      assert ("cowrie" + "|" + a.sessionId)[7..] == a.sessionId;
      assert ("cowrie" + "|" + b.sessionId)[7..] == b.sessionId;
    }
  }

  lemma LastBar(x: string, s: string, y: string, t: string)
    requires x + "|" + s == y + "|" + t && '|' !in s && '|' !in t
    ensures x == y && s == t
  {
    var whole := x + "|" + s;
    assert whole[|x|] == '|' && whole[|y|] == '|';
    assert x == whole[..|x|] && y == whole[..|y|];
    assert s == whole[|x| + 1..] && t == whole[|y| + 1..];
  }

  // ---- What the shipper sends. ----

  lemma KeepInOrder(es: seq<Event>, m: nat)
    requires InOrder(es) && m >= 1
    ensures InOrder(Keep(es, m))
  {}

  /** Whatever the caps cut out, a payload of a session logged in time order is accepted as it stands
      and fingerprinted by its session id and its connect event. */
  lemma ReportsAreAccepted(cfg: Config, n: Naming, id: string, h: History, p: Envelope)
    requires cfg.Valid() && cfg.BlockCosts() && h.events != [] && InOrder(h.events) && p in Reported(cfg, id, h)
    ensures Validate(p) == Success(SessionAlert(id, h.events[0].srcIp, h.events[0].sensor, p.events)) && p.events != []
    ensures Fingerprint(n, Validate(p).value) == n.hash(Key(n, id, h.events[0].timestamp))
  {
    ReportsAreShaped(cfg, id, h);
    KeepInOrder(h.events, |p.events|);
    SortOfOrdered(p.events);
  }

  /** Out of time order, an accepted payload keeps the connect event's time exactly when no event it
      kept is earlier. */
  lemma ConnectTimeIff(cfg: Config, id: string, h: History, p: Envelope)
    requires cfg.Valid() && cfg.BlockCosts() && h.events != [] && p in Reported(cfg, id, h) && Validate(p).Success?
    ensures Validate(p).value.events != []
    ensures Validate(p).value.ConnectTime() == h.events[0].timestamp
       <==> forall i :: 0 <= i < |p.events| ==> h.events[0].timestamp <= p.events[i].timestamp
  {
    ReportsAreShaped(cfg, id, h);
    StartsAtFirst(p.events);
    hide Reported, Sorted, Keep;
  }

  lemma StartsAtFirst(es: seq<Event>)
    requires es != []
    ensures Sorted(es) != []
    ensures Sorted(es)[0].timestamp == es[0].timestamp
       <==> forall i :: 0 <= i < |es| ==> es[0].timestamp <= es[i].timestamp
  {
    var k := SortStartsAtEarliest(es);
    hide Sorted;
    if es[k].timestamp == es[0].timestamp {
      assert k == 0;
    }
  }

  /** The event lies in the part a payload of `kept` events leaves out. */
  predicate CutOut(total: nat, kept: nat, i: nat) { kept - 1 <= i < total - 1 }

  /** The session's one connect is its first event. */
  predicate ConnectsOnce(es: seq<Event>) {
    es != [] && es[0].kind.Connect? && forall i :: 0 < i < |es| ==> !es[i].kind.Connect?
  }

  predicate Early(es: seq<Event>, i: nat) {
    i < |es| && es[i].timestamp < es[0].timestamp
  }

  /** Whole, such a session is refused exactly when some event is stamped before its connect. Capped,
      it is accepted exactly when every event stamped before the connect was cut out: a cap hides the
      fault exactly when there is one and all of it lies in the part cut out. */
  lemma CapHidesFaultIff(cfg: Config, id: string, h: History, p: Envelope)
    requires cfg.Valid() && cfg.BlockCosts() && ConnectsOnce(h.events) && p in Reported(cfg, id, h)
    ensures Validate(p.(events := h.events)).Success? <==> forall i: nat :: !Early(h.events, i)
    ensures Validate(p).Success? <==> forall i: nat :: Early(h.events, i) ==> CutOut(|h.events|, |p.events|, i)
  {
    ReportsAreShaped(cfg, id, h);
    hide Reported, Sorted;
    var es := h.events;
    ConnectIsEarliestIff(es, p.(events := es));
    AcceptedKeptIff(es, p);
  }

  /** Where the events a payload keeps come from. */
  lemma AcceptedKeptIff(es: seq<Event>, p: Envelope)
    requires ConnectsOnce(es) && p.events != [] && p.events == Keep(es, |p.events|) && p.events[0] == es[0]
    ensures Validate(p).Success? <==> forall i: nat :: Early(es, i) ==> CutOut(|es|, |p.events|, i)
  {
    hide Validate;
    var m := |p.events|;
    assert m == 1 ==> |es| == 1;
    assert ConnectsOnce(p.events);
    ConnectIsEarliestIff(p.events, p);
    if i: nat :| Early(es, i) && !CutOut(|es|, m, i) {
      var j: nat := if i < m - 1 then i else m - 1;
      assert p.events[j] == es[i];
      assert Early(p.events, j);
    } else if j: nat :| Early(p.events, j) {
      var i: nat := if j < m - 1 then j else |es| - 1;
      assert p.events[j] == es[i];
      assert Early(es, i);
    }
  }

  lemma ConnectIsEarliestIff(es: seq<Event>, p: Envelope)
    requires ConnectsOnce(es) && p.events == es
    ensures Validate(p).Success? <==> forall i: nat :: !Early(es, i)
  {
    AcceptedIff(p);
    hide Validate;
    var k := SortStartsAtEarliest(es);
    if k == 0 {
      assert FirstEarliest(es, 0);
    } else {
      assert Early(es, k);
      assert forall j: nat :: FirstEarliest(es, j) ==> j == k;
    }
  }

  /** And truncation can then decide acceptance: the cap drops the early event from the middle of a
      session of three, and the API accepts the payload it would have refused whole. */
  lemma TruncationCanHideAnEarlyEvent(whole: Config, capped: Config, id: string)
    requires whole.maxEvents == 3 && capped.maxEvents == 2
    requires forall e: Envelope :: whole.size(e) <= whole.maxPayloadBytes
    ensures var e := Event(Connect, id, "", "", 5, "");
      var h := History([e, e.(kind := Other, timestamp := 4), e.(kind := Closed, timestamp := 6)], 0.0);
      && (exists p :: Reported(whole, id, h) == [p] && Validate(p).Failure?)
      && (exists p :: Reported(capped, id, h) == [p] && Validate(p).Success?)
  {
    var e := Event(Connect, id, "", "", 5, "");
    var es := [e, e.(kind := Other, timestamp := 4), e.(kind := Closed, timestamp := 6)];
    var h := History(es, 0.0);
    assert Keep(es, 2) == [es[0], es[2]] && Keep(es, 3) == es;
    assert Keep([es[0], es[2]], 2) == [es[0], es[2]];
    var refused := Reported(whole, id, h)[0];
    assert refused.events == es;
    var k := SortStartsAtEarliest(es);
    var accepted := Reported(capped, id, h)[0];
    assert accepted.events == [es[0], es[2]];
    SortOfOrdered(accepted.events);
    assert Reported(whole, id, h) == [refused] && Reported(capped, id, h) == [accepted];
  }

  /** End to end: however often a session is shipped, truncated or not, closed or idle, and whatever
      the workers and the administrator do in between, every accepted copy finds the row of the
      first, under the same id. */
  lemma ReshipsShareOneRow(
    cfg: Config, n: Naming, id: string, first: History, again: History, p: Envelope, q: Envelope,
    limits: Limits, s: System, actions: seq<Action>, t: System)
    requires cfg.Valid() && cfg.BlockCosts() && first.events != [] && again.events != []
    requires InOrder(first.events) && InOrder(again.events) && first.events[0] == again.events[0]
    requires p in Reported(cfg, id, first) && q in Reported(cfg, id, again)
    requires limits.Valid() && Inv(limits, s) && RunsTo(limits, s, actions, t)
    ensures Validate(p).Success? && Validate(q).Success? && p.events != [] && q.events != []
    ensures var f, g := Fingerprint(n, Validate(p).value), Fingerprint(n, Validate(q).value);
      Known(s.rows, f) ==> Known(t.rows, g) && IdOf(t.rows, g) == IdOf(s.rows, f)
  {
    hide Reported, Validate, Fingerprint, Inv;
    ReportsAreAccepted(cfg, n, id, first, p);
    ReportsAreAccepted(cfg, n, id, again, q);
    var f := Fingerprint(n, Validate(p).value);
    if Known(s.rows, f) {
      ReshippingFindsTheSameRow(limits, s, actions, t, f);
    }
  }
}
