/** The value-level account of the tailer's buffer: what it must hold, relative to the bytes read so
    far, between two reads (`Reading`) and between two calls (`Settled`). */
module TailState {
  import opened Lines
  import opened Seqs
  import opened Wrappers

  /** The two tunables; the longest line kept is four chunks. */
  datatype Limits = Limits(chunk: nat, batch: nat) {
    predicate Positive() { chunk >= 1 && batch >= 1 }
    function MaxLine(): nat { 4 * chunk }
    function MaxBuffer(): nat { 5 * batch * chunk }
  }

  /** How many complete lines of `s` are over the bound. */
  function Overlong(s: Bytes, max: nat): nat { |Complete(s)| - |Kept(Complete(s), max)| }

  /** `t` is a suffix of `whole` that starts on a line boundary. */
  ghost predicate AlignedSuffix(whole: Bytes, t: Bytes) {
    && |t| <= |whole|
    && whole == whole[..|whole| - |t|] + t
    && Partial(whole[..|whole| - |t|]) == []
  }

  /** The buffer without its first `n` complete lines. */
  function Surplus(buffer: Bytes, n: nat): Bytes
    requires n <= |Complete(buffer)|
  {
    Join(Complete(buffer)[n..]) + Partial(buffer)
  }

  /** The unterminated tail is buffered whole, or it is over the bound and only counted. */
  ghost predicate TailTracked(consumed: Bytes, buffer: Bytes, dropping: Option<nat>, max: nat) {
    match dropping
    case None => Partial(buffer) == Partial(consumed) && |Partial(consumed)| <= max
    case Some(n) => Partial(buffer) == [] && n == |Partial(consumed)| > max
  }

  /** Nothing past the first batch was dropped: it is exactly the end of what was read. */
  ghost predicate SurplusIntact(consumed: Bytes, buffer: Bytes, dropping: Option<nat>, lim: Limits) {
    if |Complete(buffer)| < lim.batch then true
    else
      && dropping.None?
      && AllFit(Complete(buffer)[lim.batch..], lim.MaxLine())
      && AlignedSuffix(consumed, Surplus(buffer, lim.batch))
  }

  /** The invariant while chunks are being read. */
  ghost predicate Reading(consumed: Bytes, buffer: Bytes, dropping: Option<nat>, returned: seq<Bytes>, lim: Limits)
    requires lim.Positive()
  {
    && returned + Kept(Complete(buffer), lim.MaxLine()) == Kept(Complete(consumed), lim.MaxLine())
    && TailTracked(consumed, buffer, dropping, lim.MaxLine())
    && SurplusIntact(consumed, buffer, dropping, lim)
    && AllFit(Complete(buffer), 5 * lim.chunk - 1)
    && |buffer| <= lim.MaxBuffer()
  }

  /** The invariant between calls. While a line is being dropped the buffer is empty; otherwise it
      is exactly what follows the last returned line, and every line in it is within the bound. */
  ghost predicate Settled(consumed: Bytes, buffer: Bytes, dropping: Option<nat>, returned: seq<Bytes>, lim: Limits) {
    && |buffer| <= lim.MaxBuffer()
    && match dropping
       case Some(n) =>
         && buffer == []
         && n == |Partial(consumed)| > lim.MaxLine()
         && returned == Kept(Complete(consumed), lim.MaxLine())
       case None =>
         && AlignedSuffix(consumed, buffer)
         && returned == Kept(Complete(consumed[..|consumed| - |buffer|]), lim.MaxLine())
         && AllFit(Complete(buffer), lim.MaxLine())
         && |Partial(buffer)| <= lim.MaxLine()
  }

  lemma FirstNewlineShift(s: Bytes, i: nat)
    requires s != [] && s[0] != NEWLINE && i < |s[1..]| && s[1..][i] == NEWLINE && NEWLINE !in s[1..][..i]
    ensures s[i + 1] == NEWLINE && NEWLINE !in s[..i + 1]
  {
    assert s[..i + 1] == [s[0]] + s[1..][..i];
  }

  /** Position of the first newline. */
  function FirstNewline(s: Bytes): (i: nat)
    requires NEWLINE in s
    ensures i < |s| && s[i] == NEWLINE && NEWLINE !in s[..i]
  {
    if s[0] == NEWLINE then 0
    else
      var i := FirstNewline(s[1..]);
      FirstNewlineShift(s, i);
      i + 1
  }

  /** A chunk's share of a line already being dropped is discarded. */
  function Skip(dropping: Option<nat>, chunk: Bytes): (Bytes, Option<nat>) {
    match dropping
    case None => (chunk, None)
    case Some(n) =>
      if NEWLINE in chunk then (chunk[FirstNewline(chunk) + 1..], None) else ([], Some(n + |chunk|))
  }

  /** An unterminated tail past the bound is discarded and counted. */
  function Cut(buffer: Bytes, dropping: Option<nat>, max: nat): (Bytes, Option<nat>) {
    var p := |Partial(buffer)|;
    if p <= max then (buffer, dropping) else (buffer[..|buffer| - p], Some(p))
  }

  lemma SettledIsReading(consumed: Bytes, buffer: Bytes, dropping: Option<nat>, returned: seq<Bytes>, lim: Limits)
    requires lim.Positive() && Settled(consumed, buffer, dropping, returned, lim)
    ensures Reading(consumed, buffer, dropping, returned, lim)
    ensures Overlong(buffer, lim.MaxLine()) == 0
  {
    SettledRefines(consumed, buffer, dropping, returned, lim);
    KeptFit(Complete(buffer), lim.MaxLine());
    hide Complete, Partial, Kept;
    if dropping.None? {
      SettledTail(consumed, buffer, lim);
    }
  }

  /** A buffer that is the end of what was read holds its tail, and so does what exceeds a batch of it. */
  lemma SettledTail(consumed: Bytes, buffer: Bytes, lim: Limits)
    requires AlignedSuffix(consumed, buffer) && AllFit(Complete(buffer), lim.MaxLine())
    ensures Partial(consumed) == Partial(buffer)
    ensures SurplusIntact(consumed, buffer, None, lim)
  {
    hide Complete, Partial, Surplus;
    var pre := consumed[..|consumed| - |buffer|];
    SplitAligned(pre, buffer);
    if lim.batch <= |Complete(buffer)| {
      AllFitSuffix(Complete(buffer), lim.batch, lim.MaxLine());
      SurplusOfAligned(pre, buffer, lim.batch);
    }
  }

  lemma ReadingFacts(consumed: Bytes, buffer: Bytes, dropping: Option<nat>, returned: seq<Bytes>, lim: Limits)
    requires lim.Positive() && Reading(consumed, buffer, dropping, returned, lim)
    ensures dropping.Some? ==> |Complete(buffer)| < lim.batch
    ensures |Partial(buffer)| <= lim.MaxLine()
  {}

  lemma SettledFacts(consumed: Bytes, buffer: Bytes, dropping: Option<nat>, returned: seq<Bytes>, lim: Limits)
    requires Settled(consumed, buffer, dropping, returned, lim)
    ensures |buffer| <= |consumed| && |buffer| <= lim.MaxBuffer() && (dropping.Some? ==> buffer == [])
    ensures AllFit(Complete(buffer), lim.MaxLine())
  {}

  lemma AlignedIntro(whole: Bytes, head: Bytes, t: Bytes)
    requires whole == head + t && Partial(head) == []
    ensures AlignedSuffix(whole, t) && whole[..|whole| - |t|] == head
  {
    Halves(head, t);
  }

  /** A string cut after its first `n` lines. */
  lemma CutAfterLines(s: Bytes, n: nat)
    requires n <= |Complete(s)|
    ensures s == Join(Complete(s)[..n]) + Surplus(s, n)
    ensures Complete(Join(Complete(s)[..n])) == Complete(s)[..n] && Partial(Join(Complete(s)[..n])) == []
    ensures Complete(Surplus(s, n)) == Complete(s)[n..] && Partial(Surplus(s, n)) == Partial(s)
  {
    var lines, tail := Complete(s), Partial(s);
    var before, after := lines[..n], lines[n..];
    LinesAreProper(s);
    JoinSplit(s);
    TakeDrop(lines, n);
    JoinAppend(before, after);
    JoinIsAligned(before);
    SplitJoin(after, tail);
    Assoc(Join(before), Join(after), tail);
  }

  /** Dropping the first `n` lines of an aligned suffix leaves an aligned suffix. */
  lemma SurplusOfAligned(pre: Bytes, s: Bytes, n: nat)
    requires Partial(pre) == [] && n <= |Complete(s)|
    ensures AlignedSuffix(pre + s, Surplus(s, n))
    ensures (pre + s)[..|pre + s| - |Surplus(s, n)|] == pre + Join(Complete(s)[..n])
  {
    CutAfterLines(s, n);
    var first, t := Join(Complete(s)[..n]), Surplus(s, n);
    SplitAligned(pre, first);
    Empty(Complete(pre));
    Assoc(pre, first, t);
    AlignedIntro(pre + s, pre + first, t);
  }

  lemma CutBuffer(buffer: Bytes)
    ensures var b := buffer[..|buffer| - |Partial(buffer)|];
      b + Partial(buffer) == buffer && Complete(b) == Complete(buffer) && Partial(b) == []
  {
    JoinSplit(buffer);
    LinesAreProper(buffer);
    JoinIsAligned(Complete(buffer));
    assert buffer[..|buffer| - |Partial(buffer)|] == Join(Complete(buffer));
  }

  lemma CutAt(s: Bytes, i: nat)
    requires i < |s|
    ensures s == s[..i] + [s[i]] + s[i + 1..]
  {}

  /** `chunk` cut at its first newline. */
  ghost predicate CutsAs(chunk: Bytes, head: Bytes, rest: Bytes) {
    NEWLINE !in head && chunk == head + [NEWLINE] + rest
  }

  lemma FirstCut(chunk: Bytes)
    requires NEWLINE in chunk
    ensures CutsAs(chunk, chunk[..FirstNewline(chunk)], chunk[FirstNewline(chunk) + 1..])
  {
    CutAt(chunk, FirstNewline(chunk));
  }

  /** Lines that complete inside a chunk: the first may be long, the rest fit inside the chunk. */
  lemma ChunkLines(p: Bytes, chunk: Bytes, head: Bytes, rest: Bytes)
    requires NEWLINE !in p && CutsAs(chunk, head, rest)
    ensures Complete(p + chunk) == [p + head] + Complete(rest) && Partial(p + chunk) == Partial(rest)
  {
    FirstLine(p + head, rest);
    Assoc(p, head, [NEWLINE]);
    Assoc(p, head + [NEWLINE], rest);
  }

  lemma RoomForOneChunk(n: nat, batch: nat, chunk: nat, size: nat)
    requires n < batch && size <= n * (5 * chunk) + 4 * chunk
    ensures size + chunk <= 5 * batch * chunk
  {
    Regroup(batch, chunk);
    SplitProduct(n, batch - n, 5 * chunk);
    SplitProduct(1, batch - n - 1, 5 * chunk);
  }

  lemma Regroup(batch: nat, chunk: nat)
    ensures 5 * batch * chunk == batch * (5 * chunk)
  {}

  lemma SplitProduct(a: nat, b: nat, m: nat)
    ensures (a + b) * m == a * m + b * m && b * m >= 0
  {}

  /** The size bound survives one more chunk. */
  lemma BufferBound(buffer: Bytes, rest: Bytes, lim: Limits)
    requires |Complete(buffer)| < lim.batch && |rest| <= lim.chunk
    requires |Partial(buffer)| <= lim.MaxLine()
    requires lim.Positive() && AllFit(Complete(buffer), 5 * lim.chunk - 1)
    ensures |buffer + rest| <= lim.MaxBuffer()
  {
    SizeFromLines(buffer, 5 * lim.chunk);
    RoomForOneChunk(|Complete(buffer)|, lim.batch, lim.chunk, |buffer|);
  }

  lemma KeptNone(line: Bytes, max: nat)
    requires |line| > max
    ensures Kept([line], max) == []
  {}

  /** The kept lines grow by the kept lines that complete in the chunk. */
  lemma KeptGrow(was: seq<Bytes>, ended: seq<Bytes>, buffered: seq<Bytes>, added: seq<Bytes>, returned: seq<Bytes>,
                 max: nat)
    requires returned + Kept(buffered, max) == Kept(was, max)
    requires Kept(ended, max) == Kept(added, max)
    ensures returned + Kept(buffered + added, max) == Kept(was + ended, max)
  {
    KeptAppend(was, ended, max);
    KeptAppend(buffered, added, max);
    Assoc(returned, Kept(buffered, max), Kept(added, max));
  }

  /** Reading one more chunk while a line is being dropped and its newline has not come. */
  lemma ChunkInsideDropped(consumed: Bytes, chunk: Bytes, buffer: Bytes, n: nat, returned: seq<Bytes>, lim: Limits)
    requires lim.Positive() && Reading(consumed, buffer, Some(n), returned, lim)
    requires |Complete(buffer)| < lim.batch && NEWLINE !in chunk
    ensures Reading(consumed + chunk, buffer, Some(n + |chunk|), returned, lim)
    ensures Overlong(consumed + chunk, lim.MaxLine()) == Overlong(consumed, lim.MaxLine())
  {
    var p := Partial(consumed);
    SplitAppend(consumed, chunk);
    NoNewlineNoLines(p + chunk);
    assert Complete(consumed) + [] == Complete(consumed);
  }

  /** The chunk that ends the line being dropped: that one line is the only one lost. */
  lemma DroppedLineEnds(consumed: Bytes, chunk: Bytes, head: Bytes, rest: Bytes, buffer: Bytes, returned: seq<Bytes>,
                        max: nat)
    requires returned + Kept(Complete(buffer), max) == Kept(Complete(consumed), max)
    requires Partial(buffer) == [] && |Partial(consumed)| > max && CutsAs(chunk, head, rest)
    ensures Partial(buffer + rest) == Partial(consumed + chunk) == Partial(rest)
    ensures returned + Kept(Complete(buffer + rest), max) == Kept(Complete(consumed + chunk), max)
    ensures Overlong(consumed + chunk, max) - Overlong(buffer + rest, max)
            == Overlong(consumed, max) - Overlong(buffer, max) + 1
  {
    hide Complete, Partial, Kept, Overlong;
    var p := Partial(consumed);
    var ended := [p + head] + Complete(rest);
    SplitAppend(consumed, chunk);
    ChunkLines(p, chunk, head, rest);
    SplitAligned(buffer, rest);
    KeptAppend([p + head], Complete(rest), max);
    KeptNone(p + head, max);
    Empty(Kept(Complete(rest), max));
    KeptGrow(Complete(consumed), ended, Complete(buffer), Complete(rest), returned, max);
    OverlongGrows(consumed, consumed + chunk, ended, max);
    OverlongGrows(buffer, buffer + rest, Complete(rest), max);
  }

  lemma OverlongGrows(s: Bytes, longer: Bytes, more: seq<Bytes>, max: nat)
    requires Complete(longer) == Complete(s) + more
    ensures Overlong(longer, max) == Overlong(s, max) + |more| - |Kept(more, max)|
  {
    hide Complete, Kept;
    KeptAppend(Complete(s), more, max);
  }

  /** Reading the chunk that ends the line being dropped. */
  lemma ChunkEndsDropped(consumed: Bytes, chunk: Bytes, head: Bytes, rest: Bytes, buffer: Bytes, n: nat,
                         returned: seq<Bytes>, lim: Limits)
    requires lim.Positive() && Reading(consumed, buffer, Some(n), returned, lim)
    requires |Complete(buffer)| < lim.batch && |chunk| <= lim.chunk && CutsAs(chunk, head, rest)
    ensures Reading(consumed + chunk, buffer + rest, None, returned, lim)
    ensures Overlong(consumed + chunk, lim.MaxLine()) - Overlong(buffer + rest, lim.MaxLine())
         == Overlong(consumed, lim.MaxLine()) - Overlong(buffer, lim.MaxLine()) + 1
  {
    hide Complete, Partial, Kept, SurplusIntact, AllFit, Overlong;
    DroppedLineEnds(consumed, chunk, head, rest, buffer, returned, lim.MaxLine());
    DroppedSurplus(consumed, chunk, head, rest, buffer, lim);
    BufferBound(buffer, rest, lim);
    EndedTail(rest, lim);
  }

  lemma EndedTail(rest: Bytes, lim: Limits)
    requires |rest| <= lim.chunk
    ensures |Partial(rest)| <= lim.MaxLine()
  {}

  /** What exceeds one batch once the dropped line has ended. */
  lemma DroppedSurplus(consumed: Bytes, chunk: Bytes, head: Bytes, rest: Bytes, buffer: Bytes, lim: Limits)
    requires lim.Positive() && Partial(buffer) == [] && AllFit(Complete(buffer), 5 * lim.chunk - 1)
    requires |Complete(buffer)| < lim.batch && |chunk| <= lim.chunk && CutsAs(chunk, head, rest)
    ensures AllFit(Complete(buffer + rest), 5 * lim.chunk - 1)
    ensures SurplusIntact(consumed + chunk, buffer + rest, None, lim)
  {
    hide Complete, Partial, Surplus, AlignedSuffix, AllFit;
    LinesAreProper(rest);
    SplitAligned(buffer, rest);
    RestFits(Complete(buffer), Complete(rest), |rest|, lim);
    if |Complete(buffer + rest)| >= lim.batch {
      DropOfConcat(Complete(buffer), Complete(rest), lim.batch);
      SurplusInChunk(consumed, chunk, head, rest, buffer + rest, lim.batch - |Complete(buffer)|, lim.batch);
    }
  }

  /** Lines cut from less than one chunk are within every bound. */
  lemma RestFits(before: seq<Bytes>, rest: seq<Bytes>, size: nat, lim: Limits)
    requires lim.Positive() && size <= lim.chunk
    requires AllFit(before, 5 * lim.chunk - 1) && AllFit(rest, if size == 0 then 0 else size - 1)
    ensures AllFit(before + rest, 5 * lim.chunk - 1)
    ensures |before| <= lim.batch <= |before + rest| ==> AllFit(rest[lim.batch - |before|..], lim.MaxLine())
  {}

  lemma AllFitSuffix(lines: seq<Bytes>, k: nat, max: nat)
    requires k <= |lines| && AllFit(lines, max)
    ensures AllFit(lines[k..], max)
  {}

  /** Whatever exceeds one batch lies in the last chunk, after its first newline. */
  lemma SurplusInChunk(consumed: Bytes, chunk: Bytes, head: Bytes, rest: Bytes, buffer: Bytes, k: nat, n: nat)
    requires CutsAs(chunk, head, rest) && n <= |Complete(buffer)|
    requires k <= |Complete(rest)| && Complete(buffer)[n..] == Complete(rest)[k..] && Partial(buffer) == Partial(rest)
    ensures AlignedSuffix(consumed + chunk, Surplus(buffer, n))
  {
    hide Complete, Partial, AlignedSuffix;
    SplitPush(consumed + head, NEWLINE);
    Assoc(consumed, head, [NEWLINE]);
    Assoc(consumed, head + [NEWLINE], rest);
    SurplusOfAligned(consumed + head + [NEWLINE], rest, k);
  }

  /** Reading one more chunk when no line is being dropped: the lines and the bounds. */
  lemma ChunkAppended(consumed: Bytes, chunk: Bytes, buffer: Bytes, returned: seq<Bytes>, lim: Limits)
    requires lim.Positive() && Reading(consumed, buffer, None, returned, lim)
    requires |Complete(buffer)| < lim.batch && 0 < |chunk| <= lim.chunk
    ensures returned + Kept(Complete(buffer + chunk), lim.MaxLine()) == Kept(Complete(consumed + chunk), lim.MaxLine())
    ensures Partial(buffer + chunk) == Partial(consumed + chunk)
    ensures AllFit(Complete(buffer + chunk), 5 * lim.chunk - 1)
    ensures |buffer + chunk| <= lim.MaxBuffer()
    ensures Overlong(consumed + chunk, lim.MaxLine()) - Overlong(buffer + chunk, lim.MaxLine())
         == Overlong(consumed, lim.MaxLine()) - Overlong(buffer, lim.MaxLine())
  {
    var max, p := lim.MaxLine(), Partial(consumed);
    var ended := Complete(p + chunk);
    SplitAppend(consumed, chunk);
    SplitAppend(buffer, chunk);
    KeptGrow(Complete(consumed), ended, Complete(buffer), ended, returned, max);
    KeptAppend(Complete(consumed), ended, max);
    KeptAppend(Complete(buffer), ended, max);
    LinesAreProper(p + chunk);
    BufferBound(buffer, chunk, lim);
  }

  lemma ShortSuffix(lines: seq<Bytes>, k: nat, size: nat, lim: Limits)
    requires k <= |lines| && size <= lim.chunk && AllFit(lines, if size == 0 then 0 else size - 1)
    ensures AllFit(lines[k..], lim.MaxLine())
  {}

  /** Reading one more chunk when no line is being dropped: what exceeds one batch. */
  lemma ChunkSurplus(consumed: Bytes, chunk: Bytes, head: Bytes, rest: Bytes, buffer: Bytes, lim: Limits)
    requires |Complete(buffer)| < lim.batch <= |Complete(buffer + chunk)|
    requires CutsAs(chunk, head, rest) && |chunk| <= lim.chunk
    ensures AllFit(Complete(buffer + chunk)[lim.batch..], lim.MaxLine())
    ensures AlignedSuffix(consumed + chunk, Surplus(buffer + chunk, lim.batch))
  {
    hide Complete, Partial, Surplus, AlignedSuffix, AllFit;
    var p := Partial(buffer);
    SplitAppend(buffer, chunk);
    ChunkLines(p, chunk, head, rest);
    LinesAreProper(rest);
    Assoc(Complete(buffer), [p + head], Complete(rest));
    var k := lim.batch - |Complete(buffer)| - 1;
    DropOfConcat(Complete(buffer) + [p + head], Complete(rest), lim.batch);
    ShortSuffix(Complete(rest), k, |rest|, lim);
    SurplusInChunk(consumed, chunk, head, rest, buffer + chunk, k, lim.batch);
  }

  /** A chunk with a newline leaves a tail shorter than the chunk; one without completes no line. */
  lemma ChunkTail(buffer: Bytes, chunk: Bytes, lim: Limits)
    requires |chunk| <= lim.chunk
    ensures NEWLINE in chunk ==> |Partial(buffer + chunk)| <= lim.MaxLine()
    ensures NEWLINE !in chunk ==> Complete(buffer + chunk) == Complete(buffer)
  {
    var p := Partial(buffer);
    SplitAppend(buffer, chunk);
    if NEWLINE in chunk {
      FirstCut(chunk);
      ChunkLines(p, chunk, chunk[..FirstNewline(chunk)], chunk[FirstNewline(chunk) + 1..]);
    } else {
      NoNewlineNoLines(p + chunk);
      Empty(Complete(buffer));
    }
  }

  /** Reading one more chunk when no line is being dropped. */
  lemma ChunkWhileKeeping(consumed: Bytes, chunk: Bytes, buffer: Bytes, returned: seq<Bytes>, lim: Limits)
    requires lim.Positive() && Reading(consumed, buffer, None, returned, lim)
    requires |Complete(buffer)| < lim.batch && 0 < |chunk| <= lim.chunk
    ensures var (b, d) := Cut(buffer + chunk, None, lim.MaxLine());
      && Reading(consumed + chunk, b, d, returned, lim)
      && Overlong(consumed + chunk, lim.MaxLine()) - Overlong(b, lim.MaxLine())
         == Overlong(consumed, lim.MaxLine()) - Overlong(buffer, lim.MaxLine())
  {
    ChunkAppended(consumed, chunk, buffer, returned, lim);
    ChunkTail(buffer, chunk, lim);
    if |Complete(buffer + chunk)| >= lim.batch {
      if NEWLINE !in chunk {
        assert false;
      }
      FirstCut(chunk);
      ChunkSurplus(consumed, chunk, chunk[..FirstNewline(chunk)], chunk[FirstNewline(chunk) + 1..], buffer, lim);
    }
    CutBuffer(buffer + chunk);
  }

  /** One chunk, whatever the state: the whole transition keeps the reading invariant. */
  lemma ChunkRead(consumed: Bytes, chunk: Bytes, buffer: Bytes, dropping: Option<nat>, returned: seq<Bytes>,
                  lim: Limits)
    requires lim.Positive() && Reading(consumed, buffer, dropping, returned, lim)
    requires |Complete(buffer)| < lim.batch && 0 < |chunk| <= lim.chunk
    ensures var (rest, d) := Skip(dropping, chunk);
      var (b, d') := Cut(buffer + rest, d, lim.MaxLine());
      && Reading(consumed + chunk, b, d', returned, lim)
      && Overlong(consumed + chunk, lim.MaxLine()) - Overlong(b, lim.MaxLine())
         == Overlong(consumed, lim.MaxLine()) - Overlong(buffer, lim.MaxLine())
            + (if dropping.Some? && NEWLINE in chunk then 1 else 0)
  {
    hide Reading, Overlong;
    if dropping.None? {
      ChunkWhileKeeping(consumed, chunk, buffer, returned, lim);
    } else if NEWLINE in chunk {
      FirstCut(chunk);
      ChunkEndsDropped(consumed, chunk, chunk[..FirstNewline(chunk)], chunk[FirstNewline(chunk) + 1..], buffer,
                       dropping.value, returned, lim);
      ReadingFacts(consumed + chunk, buffer + chunk[FirstNewline(chunk) + 1..], None, returned, lim);
    } else {
      ChunkInsideDropped(consumed, chunk, buffer, dropping.value, returned, lim);
      Empty(buffer);
      ReadingFacts(consumed, buffer, dropping, returned, lim);
    }
  }

  lemma {:induction false} KeptIsSmaller(lines: seq<Bytes>, max: nat)
    ensures |Join(Kept(lines, max))| <= |Join(lines)|
  {
    if lines != [] {
      var front, last := lines[..|lines| - 1], lines[|lines| - 1];
      KeptIsSmaller(front, max);
      if |last| <= max {
        JoinPush(Kept(front, max), last);
      }
    }
  }

  /** The buffer a call leaves behind: the kept lines past the first `n`, and the tail. */
  function Remainder(buffer: Bytes, n: nat, max: nat): Bytes
    requires n <= |Kept(Complete(buffer), max)|
  {
    Join(Kept(Complete(buffer), max)[n..]) + Partial(buffer)
  }

  lemma RemainderParts(buffer: Bytes, n: nat, max: nat)
    requires n <= |Kept(Complete(buffer), max)|
    ensures Complete(Remainder(buffer, n, max)) == Kept(Complete(buffer), max)[n..]
    ensures Partial(Remainder(buffer, n, max)) == Partial(buffer)
    ensures AllFit(Complete(Remainder(buffer, n, max)), max)
    ensures |Remainder(buffer, n, max)| + n <= |buffer|
  {
    var kept := Kept(Complete(buffer), max);
    LinesAreProper(buffer);
    KeptAreLines(Complete(buffer), max);
    SplitJoin(kept[n..], Partial(buffer));
    KeptFit(Complete(buffer), max);
    AllFitSuffix(kept, n, max);
    TakeDrop(kept, n);
    JoinAppend(kept[..n], kept[n..]);
    KeptIsSmaller(Complete(buffer), max);
    JoinIsLonger(kept[..n]);
    JoinSplit(buffer);
  }

  lemma {:induction false} JoinIsLonger(lines: seq<Bytes>)
    ensures |Join(lines)| >= |lines|
  {
    if lines != [] {
      JoinIsLonger(lines[..|lines| - 1]);
    }
  }

  lemma {:induction false} KeptAreLines(lines: seq<Bytes>, max: nat)
    requires Proper(lines)
    ensures Proper(Kept(lines, max))
  {
    if lines != [] {
      KeptAreLines(lines[..|lines| - 1], max);
    }
  }

  /** A call that ends with lines held back: they are the end of what was read. */
  lemma SettleHolding(consumed: Bytes, buffer: Bytes, returned: seq<Bytes>, lim: Limits)
    requires lim.Positive() && Reading(consumed, buffer, None, returned, lim)
    requires |Kept(Complete(buffer), lim.MaxLine())| > lim.batch
    ensures Settled(consumed, Remainder(buffer, lim.batch, lim.MaxLine()), None,
                    returned + Kept(Complete(buffer), lim.MaxLine())[..lim.batch], lim)
  {
    var max, n := lim.MaxLine(), lim.batch;
    var lines := Complete(buffer);
    var kept, first, rest := Kept(lines, max), lines[..n], lines[n..];
    var surplus := Surplus(buffer, n);
    var q := |Kept(first, max)|;
    TakeDrop(lines, n);
    KeptAppend(first, rest, max);
    KeptFit(rest, max);
    DropOfConcat(Kept(first, max), rest, n);
    CutAfterLines(buffer, n);
    var pre := consumed[..|consumed| - |surplus|];
    SurplusOfAligned(pre, surplus, n - q);
    RemainderParts(buffer, n, max);
    var left := Remainder(buffer, n, max);
    assert left == Surplus(surplus, n - q);
    SettledLines(consumed, left, kept[..n], returned, max) by {
      TakeDrop(kept, n);
    }
  }

  /** Once the held lines are known to end what was read, the returned ones are what precedes. */
  lemma SettledLines(consumed: Bytes, left: Bytes, out: seq<Bytes>, returned: seq<Bytes>, max: nat)
    requires AlignedSuffix(consumed, left) && AllFit(Complete(left), max)
    requires returned + (out + Complete(left)) == Kept(Complete(consumed), max)
    ensures returned + out == Kept(Complete(consumed[..|consumed| - |left|]), max)
  {
    var pre := consumed[..|consumed| - |left|];
    SplitAligned(pre, left);
    KeptAppend(Complete(pre), Complete(left), max);
    KeptFit(Complete(left), max);
    Assoc(returned, out, Complete(left));
    CancelRight(returned + out, Kept(Complete(pre), max), Complete(left));
  }

  /** A call that returns everything it kept leaves just the unterminated tail. */
  lemma SettleAll(consumed: Bytes, buffer: Bytes, dropping: Option<nat>, returned: seq<Bytes>, lim: Limits)
    requires lim.Positive() && Reading(consumed, buffer, dropping, returned, lim)
    requires dropping.Some? ==> |Complete(buffer)| < lim.batch
    ensures var kept := Kept(Complete(buffer), lim.MaxLine());
      Settled(consumed, Remainder(buffer, |kept|, lim.MaxLine()), dropping, returned + kept, lim)
  {
    var max := lim.MaxLine();
    var kept := Kept(Complete(buffer), max);
    RemainderParts(buffer, |kept|, max);
    assert kept[|kept|..] == [];
    CutBuffer(consumed);
  }

  /** The two ways a call ends, together: at most one batch is returned, the rest is held. */
  lemma Settle(consumed: Bytes, buffer: Bytes, dropping: Option<nat>, returned: seq<Bytes>, lim: Limits)
    requires lim.Positive() && Reading(consumed, buffer, dropping, returned, lim)
    ensures var kept := Kept(Complete(buffer), lim.MaxLine());
      var n := if |kept| > lim.batch then lim.batch else |kept|;
      Settled(consumed, Remainder(buffer, n, lim.MaxLine()), dropping, returned + kept[..n], lim)
  {
    var kept := Kept(Complete(buffer), lim.MaxLine());
    if |kept| > lim.batch {
      SettleHolding(consumed, buffer, returned, lim);
    } else {
      SettleAll(consumed, buffer, dropping, returned, lim);
      assert kept[..|kept|] == kept;
    }
  }

  /** A restart seeks to the end of the bytes read minus the buffer. From there it re-reads exactly
      the kept lines that were not returned, whatever is appended later, unless an over-long line
      was being dropped: then it starts inside that line and ships the rest of it as a line. */
  lemma RestartIsExactUnlessDropping(consumed: Bytes, buffer: Bytes, dropping: Option<nat>, returned: seq<Bytes>,
                                     lim: Limits)
    requires Settled(consumed, buffer, dropping, returned, lim)
    ensures |buffer| <= |consumed|
    ensures (forall later: Bytes ::
               returned + Kept(Complete(consumed[|consumed| - |buffer|..] + later), lim.MaxLine())
               == Kept(Complete(consumed + later), lim.MaxLine()))
            <==> dropping.None?
  {
    var held := consumed[|consumed| - |buffer|..];
    if dropping.None? {
      hide Settled, Complete, Partial, Kept;
      forall later: Bytes
        ensures returned + Kept(Complete(held + later), lim.MaxLine())
                == Kept(Complete(consumed + later), lim.MaxLine())
      {
        RestartRereads(consumed, buffer, returned, lim, later);
      }
    } else {
      DroppedRestartShipsMore(consumed, buffer, dropping, returned, lim);
      hide Settled, Complete, Partial, Kept;
      var later := [NEWLINE];
      assert returned + Kept(Complete(held + later), lim.MaxLine()) != Kept(Complete(consumed + later), lim.MaxLine());
    }
  }

  /** While a line is being dropped, its end alone would be shipped after a restart. */
  lemma DroppedRestartShipsMore(consumed: Bytes, buffer: Bytes, dropping: Option<nat>, returned: seq<Bytes>,
                                lim: Limits)
    requires Settled(consumed, buffer, dropping, returned, lim) && dropping.Some?
    ensures |buffer| <= |consumed|
    ensures returned + Kept(Complete(consumed[|consumed| - |buffer|..] + [NEWLINE]), lim.MaxLine())
            != Kept(Complete(consumed + [NEWLINE]), lim.MaxLine())
  {
    LoneNewline(lim.MaxLine());
    OverlongLineEnds(consumed, lim.MaxLine());
    assert consumed[|consumed| - |buffer|..] == [] && returned == Kept(Complete(consumed), lim.MaxLine());
    hide Settled, Complete, Partial, Kept;
    Empty([NEWLINE]);
  }

  lemma LoneNewline(max: nat)
    ensures |Kept(Complete([NEWLINE]), max)| == 1
  {
    SplitPush([], NEWLINE);
    Empty([NEWLINE]);
    var fragment: seq<Bytes> := [[]];
    assert fragment[..0] == [] && |Kept(fragment, max)| == 1;
    assert Complete([NEWLINE]) == fragment;
  }

  lemma OverlongLineEnds(s: Bytes, max: nat)
    requires |Partial(s)| > max
    ensures Kept(Complete(s + [NEWLINE]), max) == Kept(Complete(s), max)
  {
    SplitPush(s, NEWLINE);
    KeptAppend(Complete(s), [Partial(s)], max);
    KeptNone(Partial(s), max);
    hide Complete, Partial, Kept;
    Empty(Kept(Complete(s), max));
  }

  lemma RestartRereads(consumed: Bytes, buffer: Bytes, returned: seq<Bytes>, lim: Limits, later: Bytes)
    requires Settled(consumed, buffer, None, returned, lim)
    ensures returned + Kept(Complete(consumed[|consumed| - |buffer|..] + later), lim.MaxLine())
            == Kept(Complete(consumed + later), lim.MaxLine())
  {
    var pre := consumed[..|consumed| - |buffer|];
    Halves(pre, buffer);
    Assoc(pre, buffer, later);
    SplitAligned(pre, buffer + later);
    KeptAppend(Complete(pre), Complete(buffer + later), lim.MaxLine());
  }

  /** Everything read so far, as lines: what was returned followed by what is held. */
  lemma SettledRefines(consumed: Bytes, buffer: Bytes, dropping: Option<nat>, returned: seq<Bytes>, lim: Limits)
    requires Settled(consumed, buffer, dropping, returned, lim)
    ensures returned + Complete(buffer) == Kept(Complete(consumed), lim.MaxLine())
  {
    if dropping.None? {
      var pre := consumed[..|consumed| - |buffer|];
      SplitAligned(pre, buffer);
      KeptAppend(Complete(pre), Complete(buffer), lim.MaxLine());
      KeptFit(Complete(buffer), lim.MaxLine());
    } else {
      Empty(returned);
    }
  }
}
