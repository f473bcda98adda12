/** The disk spool, the exponential back-off, the status-to-retry mapping and the drain loop. */
module Spooling {
  import opened Seqs
  import opened Sessions
  import opened Wrappers

  /** A spool file: its name sorts by `stamp`. */
  datatype SpoolFile = SpoolFile(stamp: nat, payload: Envelope)

  /** What one POST meets: no response at all, or a status code. */
  datatype Reply = NoResponse | Status(code: int)

  datatype PostResult = PostResult(status: Option<int>, retry: bool)

  /** No answer, an overload and a server fault are worth another try; nothing else is, and an
      acceptance never is. */
  function Post(reply: Reply): (r: PostResult)
    ensures !r.retry <==> reply.Status? && reply.code < 500 && reply.code !in {408, 425, 429}
    ensures r.status == match reply case Status(code) => Some(code) case NoResponse => None
    ensures Accepted(reply) ==> !r.retry
  {
    match reply
    case NoResponse => PostResult(None, true)
    case Status(code) =>
      if code in {200, 202} then PostResult(Some(code), false)
      else if code in {408, 425, 429} || code >= 500 then PostResult(Some(code), true)
      else PostResult(Some(code), false)
  }

  predicate Accepted(reply: Reply) {
    reply.Status? && 200 <= reply.code < 300
  }

  ghost predicate Fifo(files: seq<SpoolFile>) {
    forall i, j :: 0 <= i < j < |files| ==> files[i].stamp < files[j].stamp
  }

  /** The directory after a put: the oldest file makes room once the cap is reached. */
  function AfterPut(files: seq<SpoolFile>, maxFiles: nat, f: SpoolFile): seq<SpoolFile>
    requires maxFiles >= 1
  {
    (if |files| >= maxFiles then files[1..] else files) + [f]
  }

  /** How many files a drain deals with before it stops. */
  function Handled(replies: seq<Reply>): (n: nat)
    ensures n <= |replies|
    ensures forall i :: 0 <= i < n ==> !Post(replies[i]).retry
    ensures n < |replies| ==> Post(replies[n]).retry
  {
    if replies == [] || Post(replies[0]).retry then 0 else 1 + Handled(replies[1..])
  }

  /** The files whose reply was, or was not, an acceptance, in order. */
  function Sorted(files: seq<SpoolFile>, replies: seq<Reply>, accepted: bool): seq<SpoolFile>
    requires |files| == |replies|
  {
    if files == [] then []
    else
      var n := |files| - 1;
      Sorted(files[..n], replies[..n], accepted) + if Accepted(replies[n]) == accepted then [files[n]] else []
  }

  lemma SortedPush(files: seq<SpoolFile>, replies: seq<Reply>, f: SpoolFile, r: Reply, accepted: bool)
    requires |files| == |replies|
    ensures Sorted(files + [f], replies + [r], accepted)
            == Sorted(files, replies, accepted) + if Accepted(r) == accepted then [f] else []
  {
    Halves(files, [f]);
    Halves(replies, [r]);
  }

  lemma SortedStep(base: seq<SpoolFile>, files: seq<SpoolFile>, replies: seq<Reply>, i: nat, accepted: bool)
    requires i < |files| == |replies|
    ensures base + Sorted(files[..i + 1], replies[..i + 1], accepted)
            == (base + Sorted(files[..i], replies[..i], accepted))
               + if Accepted(replies[i]) == accepted then [files[i]] else []
  {
    assert files[..i + 1] == files[..i] + [files[i]];
    assert replies[..i + 1] == replies[..i] + [replies[i]];
    SortedPush(files[..i], replies[..i], files[i], replies[i], accepted);
    Assoc(base, Sorted(files[..i], replies[..i], accepted),
          if Accepted(replies[i]) == accepted then [files[i]] else []);
  }

  lemma NothingSorted(files: seq<SpoolFile>, replies: seq<Reply>)
    ensures Sorted(files[..0], replies[..0], true) == [] == Sorted(files[..0], replies[..0], false)
    ensures files[0..] == files && replies[0..] == replies
  {}

  lemma HandledStep(replies: seq<Reply>, i: nat)
    requires i < |replies|
    ensures i + Handled(replies[i..]) == if Post(replies[i]).retry then i else i + 1 + Handled(replies[i + 1..])
  {
    assert replies[i..][1..] == replies[i + 1..];
  }

  /** A drain loses nothing and invents nothing: the files it dealt with are exactly the accepted
      ones and the dead-lettered ones. */
  lemma {:induction false} DrainPartitions(files: seq<SpoolFile>, replies: seq<Reply>)
    requires |files| == |replies|
    ensures multiset(Sorted(files, replies, true)) + multiset(Sorted(files, replies, false)) == multiset(files)
  {
    if files != [] {
      var n := |files| - 1;
      DrainPartitions(files[..n], replies[..n]);
      Rejoin(files);
      Rejoin(replies);
      SortedPush(files[..n], replies[..n], files[n], replies[n], true);
      SortedPush(files[..n], replies[..n], files[n], replies[n], false);
      hide Sorted, Accepted;
    }
  }

  /** A file went to the accepted ones exactly when a success code answered it. */
  lemma {:induction false} AcceptedAre(files: seq<SpoolFile>, replies: seq<Reply>, i: nat)
    requires |files| == |replies| && Fifo(files) && i < |files|
    ensures files[i] in Sorted(files, replies, true) <==> replies[i].Status? && replies[i].code / 100 == 2
    ensures files[i] in Sorted(files, replies, false) <==> !(replies[i].Status? && replies[i].code / 100 == 2)
  {
    var n := |files| - 1;
    var front, last := files[..n], files[n];
    SortedWithin(front, replies[..n], true);
    SortedWithin(front, replies[..n], false);
    Rejoin(files);
    if i < n {
      AcceptedAre(front, replies[..n], i);
      assert files[i].stamp < last.stamp;
    } else {
      assert forall j :: 0 <= j < n ==> front[j].stamp < last.stamp;
    }
  }

  lemma {:induction false} SortedWithin(files: seq<SpoolFile>, replies: seq<Reply>, accepted: bool)
    requires |files| == |replies|
    ensures forall f :: f in Sorted(files, replies, accepted) ==> f in files
  {
    if files != [] {
      SortedWithin(files[..|files| - 1], replies[..|files| - 1], accepted);
      Rejoin(files);
    }
  }

  // ---- Back-off. ----

  function Doubled(base: real, n: nat): real {
    if n == 0 then base else 2.0 * Doubled(base, n - 1)
  }

  function Delay(base: real, max: real, n: nat): real {
    if Doubled(base, n) <= max then Doubled(base, n) else max
  }

  /** Consecutive delays never shrink and never pass the cap; the first one is the base. */
  lemma {:induction false} DelaysGrowToTheCap(base: real, max: real, n: nat, m: nat)
    requires base > 0.0 && max > 0.0 && n <= m
    ensures 0.0 < Delay(base, max, n) <= Delay(base, max, m) <= max
    ensures Delay(base, max, n + 1) == if 2.0 * Delay(base, max, n) <= max then 2.0 * Delay(base, max, n) else max
    ensures Delay(base, max, 0) == if base <= max then base else max
    ensures Doubled(base, n) <= Doubled(base, m) && 0.0 < Doubled(base, n)
    decreases m
  {
    if n < m {
      DelaysGrowToTheCap(base, max, n, m - 1);
      DelaysGrowToTheCap(base, max, m - 1, m - 1);
    } else if n > 0 {
      DelaysGrowToTheCap(base, max, n - 1, n - 1);
    }
  }

  class Backoff {
    const base: real
    const max: real
    var consecutive: nat

    constructor (base: real, max: real)
      ensures consecutive == 0 && this.base == base && this.max == max
    {
      this.base, this.max, consecutive := base, max, 0;
    }

    method Wait() returns (delay: real)
      modifies this
      ensures delay == Delay(base, max, old(consecutive)) && consecutive == old(consecutive) + 1
    {
      var d := base;
      var i := 0;
      while i < consecutive
        invariant 0 <= i <= consecutive && d == Doubled(base, i)
      {
        d := 2.0 * d;
        i := i + 1;
      }
      delay := if d <= max then d else max;
      consecutive := consecutive + 1;
    }

    method Reset()
      modifies this
      ensures consecutive == 0
    {
      consecutive := 0;
    }
  }

  /** The spool directory and its dead-letter directory. */
  class Spool {
    const maxFiles: nat
    var files: seq<SpoolFile>
    var deadLetters: seq<SpoolFile>
    ghost var accepted: seq<SpoolFile> // what the api has accepted
    ghost var evicted: seq<SpoolFile>  // what the cap dropped

    ghost predicate Valid()
      reads this
    {
      maxFiles >= 1 && Fifo(files)
    }

    constructor (maxFiles: nat)
      requires maxFiles >= 1
      ensures Valid() && this.maxFiles == maxFiles
      ensures files == [] && deadLetters == [] && accepted == [] && evicted == []
    {
      this.maxFiles := maxFiles;
      files, deadLetters, accepted, evicted := [], [], [], [];
    }

    method Put(payload: Envelope, stamp: nat)
      requires Valid() && forall f <- files :: f.stamp < stamp
      modifies this
      ensures Valid() && files == AfterPut(old(files), maxFiles, SpoolFile(stamp, payload))
      ensures files == (if old(|files|) >= maxFiles then old(files)[1..] else old(files)) + [SpoolFile(stamp, payload)]
      ensures evicted == old(evicted) + if old(|files|) >= maxFiles then [old(files)[0]] else []
      ensures deadLetters == old(deadLetters) && accepted == old(accepted)
      ensures |files| <= if old(|files|) > maxFiles then old(|files|) else maxFiles
    {
      if |files| >= maxFiles {
        evicted := evicted + [files[0]];
        files := files[1..];
      } else {
        Empty(evicted);
      }
      files := files + [SpoolFile(stamp, payload)];
    }

    /** Delete a delivered file. */
    method RemoveHead()
      requires Valid() && files != []
      modifies this
      ensures Valid() && files == old(files)[1..] && accepted == old(accepted) + [old(files)[0]]
      ensures deadLetters == old(deadLetters) && evicted == old(evicted)
    {
      accepted := accepted + [files[0]];
      files := files[1..];
    }

    /** Move a permanently rejected file aside. */
    method DeadHead()
      requires Valid() && files != []
      modifies this
      ensures Valid() && files == old(files)[1..] && deadLetters == old(deadLetters) + [old(files)[0]]
      ensures accepted == old(accepted) && evicted == old(evicted)
    {
      deadLetters := deadLetters + [files[0]];
      files := files[1..];
    }
  }

  /** Send every pending payload in order and stop at the first retryable result. `replies` is what
      the network answers to each, were it sent. */
  method Drain(spool: Spool, backoff: Backoff, replies: seq<Reply>) returns (delivered: nat)
    requires spool.Valid() && |replies| == |spool.files|
    modifies spool, backoff
    ensures spool.Valid() && spool.evicted == old(spool.evicted)
    ensures spool.files == old(spool.files)[Handled(replies)..]
    ensures spool.accepted == old(spool.accepted)
                              + Sorted(old(spool.files)[..Handled(replies)], replies[..Handled(replies)], true)
    ensures spool.deadLetters == old(spool.deadLetters)
                                 + Sorted(old(spool.files)[..Handled(replies)], replies[..Handled(replies)], false)
    ensures delivered == |spool.accepted| - |old(spool.accepted)|
    ensures backoff.consecutive == (if delivered > 0 then 0 else old(backoff.consecutive))
                                   + if Handled(replies) < |replies| then 1 else 0
  {
    hide Sorted, Handled, Fifo;
    NothingSorted(spool.files, replies);
    delivered := 0;
    var pending, i := spool.files, 0;
    Empty(spool.accepted);
    Empty(spool.deadLetters);
    while i < |pending|
      invariant 0 <= i <= |pending| && spool.Valid()
      invariant spool.files == pending[i..] && spool.evicted == old(spool.evicted)
      invariant Handled(replies) == i + Handled(replies[i..])
      invariant spool.accepted == old(spool.accepted) + Sorted(pending[..i], replies[..i], true)
      invariant spool.deadLetters == old(spool.deadLetters) + Sorted(pending[..i], replies[..i], false)
      invariant delivered == |spool.accepted| - |old(spool.accepted)|
      invariant backoff.consecutive == if delivered > 0 then 0 else old(backoff.consecutive)
    {
      HandledStep(replies, i);
      var result := Post(replies[i]);
      if result.retry {
        var _ := backoff.Wait();
        return;
      }
      SortedStep(old(spool.accepted), pending, replies, i, true);
      SortedStep(old(spool.deadLetters), pending, replies, i, false);
      Empty(spool.accepted);
      Empty(spool.deadLetters);
      var status := result.status.value;
      if 200 <= status < 300 {
        spool.RemoveHead();
        backoff.Reset();
        delivered := delivered + 1;
      } else {
        spool.DeadHead();
      }
      i := i + 1;
    }
  }
}
