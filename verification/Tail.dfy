/** The rotation-aware log follower: chunked reads into a carry-over buffer, a batch cap, over-long
    line dropping and a persisted offset. */
module Tail {
  import opened Lines
  import opened Seqs
  import opened TailState
  import opened Wrappers

  datatype Position = Position(inode: nat, offset: nat)

  function Flatten(parts: seq<Bytes>): Bytes {
    if parts == [] then [] else parts[0] + Flatten(parts[1..])
  }

  function Concat(batches: seq<seq<Bytes>>): seq<Bytes> {
    if batches == [] then [] else Concat(batches[..|batches| - 1]) + batches[|batches| - 1]
  }

  lemma ConcatPush(batches: seq<seq<Bytes>>, last: seq<Bytes>)
    ensures Concat(batches + [last]) == Concat(batches) + last
  {
    Halves(batches, [last]);
  }

  /** Whatever the writer had waiting for the next read has arrived. */
  predicate Polled(before: seq<Bytes>, after: seq<Bytes>) {
    |after| < |before| || before == after == []
  }

  /** A log file. `arrivals` is what the writer appends just before each of the coming reads. */
  class LogFile {
    const inode: nat
    var content: Bytes
    var arrivals: seq<Bytes>

    constructor (inode: nat, content: Bytes, arrivals: seq<Bytes>)
      ensures this.inode == inode && this.content == content && this.arrivals == arrivals
    {
      this.inode := inode;
      this.content := content;
      this.arrivals := arrivals;
    }

    /** Everything the file will ever hold. */
    ghost function Whole(): Bytes
      reads this
    {
      content + Flatten(arrivals)
    }

    /** Up to `n` bytes at `position`; empty only at the end of the file. */
    method Read(position: nat, n: nat) returns (chunk: Bytes)
      requires position <= |content| && n >= 1
      modifies this
      ensures Whole() == old(Whole()) && old(content) <= content
      ensures old(arrivals) == [] ==> unchanged(this)
      ensures Polled(old(arrivals), arrivals)
      ensures |chunk| <= n && position + |chunk| <= |content| && chunk == content[position..position + |chunk|]
      ensures chunk == [] ==> position == |content|
    {
      if arrivals != [] {
        Assoc(content, arrivals[0], Flatten(arrivals[1..]));
        content, arrivals := content + arrivals[0], arrivals[1..];
      }
      var end := if position + n <= |content| then position + n else |content|;
      chunk := content[position..end];
    }
  }

  /** `tail.json`: the persisted position, which outlives the process. */
  class StateFile {
    var state: Option<Position>

    constructor ()
      ensures state == None
    {
      state := None;
    }
  }

  /** Where a file of this inode and size is opened, given a persisted position. */
  function SeekOffset(state: Option<Position>, inode: nat, size: nat): nat {
    match state
    case None => 0
    case Some(p) => if p.inode == inode && p.offset <= size then p.offset else 0
  }

  /** Where a file is to be opened: at the saved offset of this very file while it is that long, and at the
      first byte of any other: one never seen, one that took its place, one that was truncated. */
  ghost predicate OpenedAt(state: Option<Position>, inode: nat, size: nat, start: nat) {
    && (forall offset: nat :: state == Some(Position(inode, offset)) ==> start == if size < offset then 0 else offset)
    && ((forall offset: nat :: state != Some(Position(inode, offset))) ==> start == 0)
  }

  lemma SeekIsWhereOpened(state: Option<Position>, inode: nat, size: nat)
    ensures OpenedAt(state, inode, size, SeekOffset(state, inode, size))
  {
    if state.Some? && state.value.inode == inode {
      assert state == Some(Position(inode, state.value.offset));
    }
  }

  /** The persisted position leads back to `offset`, and will whatever is appended. */
  ghost predicate LeadsTo(state: Option<Position>, inode: nat, size: nat, offset: int) {
    && SeekOffset(state, inode, size) == offset
    && (state.Some? && state.value.inode == inode ==> state.value.offset <= size)
  }

  lemma LeadsToGrows(state: Option<Position>, inode: nat, size: nat, grown: nat, offset: int)
    requires LeadsTo(state, inode, size, offset) && size <= grown
    ensures LeadsTo(state, inode, grown, offset)
  {}

  lemma LeadsToItself(inode: nat, size: nat, offset: nat)
    requires offset <= size
    ensures LeadsTo(Some(Position(inode, offset)), inode, size, offset)
  {}

  lemma OverlongIs(s: Bytes, max: nat)
    ensures Overlong(s, max) == |Complete(s)| - |Kept(Complete(s), max)|
  {}

  /** What a batch takes and drops, in bytes. */
  lemma BatchSizes(whole: Bytes, kept: seq<Bytes>, n: nat, dropped: nat)
    requires n <= |kept| && dropped + |Join(kept)| == |Join(Complete(whole))|
    ensures |Join(kept[n..]) + Partial(whole)| == |whole| - dropped - |Join(kept[..n])|
  {
    JoinSplit(whole);
    TakeDrop(kept, n);
    JoinAppend(kept[..n], kept[n..]);
    hide Join, Complete, Partial;
    assert |Join(Complete(whole)) + Partial(whole)| == |whole|;
  }

  lemma NothingTaken(kept: seq<Bytes>, n: nat)
    requires n <= |kept| && kept[..n] == []
    ensures |Join(kept[..n])| == 0
  {}

  class LogTailer {
    const stateFile: StateFile
    const readChunkBytes: nat
    const maxBatchLines: nat
    const maxLineBytes: nat
    var file: LogFile?
    var position: nat
    var inode: nat
    var buffer: Bytes
    var pendingState: Option<Position>
    var atEof: bool
    var droppingBytes: Option<nat>
    var droppedLines: nat

    ghost var start: nat           // the offset the open file was opened at
    ghost var returned: seq<Bytes> // the lines returned from the open file
    ghost var closed: seq<Bytes>   // the lines returned from files already closed
    ghost var droppedBefore: nat   // over-long lines counted in files already closed
    ghost var tracked: bool        // the effective persisted position describes the open file

    ghost function Lim(): Limits { Limits(readChunkBytes, maxBatchLines) }

    /** The bytes read from the open file. */
    ghost function Consumed(): Bytes
      requires file != null && start <= position <= |file.content|
      reads this, file
    {
      file.content[start..position]
    }

    /** The position a restart would find once the pending one is committed. */
    function Effective(): Option<Position>
      reads this, stateFile
    {
      if pendingState.Some? then pendingState else stateFile.state
    }

    /** Every line returned over the tailer's life. */
    ghost function Returned(): seq<Bytes>
      reads this
    {
      closed + returned
    }

    ghost predicate Valid()
      reads this, stateFile, file
    {
      && readChunkBytes >= 1 && maxBatchLines >= 1 && maxLineBytes == 4 * readChunkBytes
      && (file == null ==> buffer == [] && droppingBytes == None && returned == [])
      && (file != null ==>
            && inode == file.inode && start <= position <= |file.content|
            && Settled(Consumed(), buffer, droppingBytes, returned, Lim())
            && droppedLines == droppedBefore + Overlong(Consumed(), maxLineBytes)
            && (tracked ==> LeadsTo(Effective(), inode, |file.content|, position - |buffer|)))
    }

    /** The last call read `at` to its end, past whatever the writer had waiting. */
    ghost predicate AtEnd(arrivals: seq<Bytes>, at: LogFile?)
      reads this, at
    {
      && at != null && file == at && atEof && position == |at.content| && Complete(buffer) == []
      && Polled(arrivals, at.arrivals)
    }

    constructor (stateFile: StateFile, readChunkBytes: nat, maxBatchLines: nat)
      requires readChunkBytes >= 1 && maxBatchLines >= 1
      ensures Valid() && file == null && pendingState == None && Returned() == [] && droppedLines == 0
      ensures this.stateFile == stateFile
      ensures this.readChunkBytes == readChunkBytes && this.maxBatchLines == maxBatchLines
    {
      this.stateFile := stateFile;
      this.readChunkBytes := readChunkBytes;
      this.maxBatchLines := maxBatchLines;
      this.maxLineBytes := 4 * readChunkBytes;
      file, position, inode, buffer := null, 0, 0, [];
      pendingState, atEof, droppingBytes, droppedLines := None, false, None, 0;
      start, returned, closed, droppedBefore, tracked := 0, [], [], 0, false;
    }

    /** Return every complete line of the open file up to one batch; see the clauses for the two
        ways a rotated file is handled. `atPath` is the file the watched path names at this call,
        null when it is missing or unreadable. */
    method ReadNewLines(atPath: LogFile?, persist: bool) returns (lines: seq<Bytes>)
      requires Valid()
      requires atPath != null && file != null && atPath.inode == inode ==> atPath == file
      modifies this, stateFile, file, atPath
      ensures Valid() && |lines| <= maxBatchLines && Returned() == old(Returned()) + lines
      // Nothing to read.
      ensures old(file) == null && atPath == null ==> lines == [] && unchanged(this) && unchanged(stateFile)
      // A file is opened where the persisted position says, and followed.
      ensures old(file) == null && atPath != null ==>
                && file == atPath && returned == lines && closed == old(closed)
                && OpenedAt(old(stateFile.state), atPath.inode, old(|atPath.content|), start)
      ensures old(file) != null && atPath == old(file) ==>
                && file == old(file) && start == old(start) && closed == old(closed)
                && returned == old(returned) + lines && old(position) <= position
      // A rotated file stays open until its end is reached, and is closed with every line returned.
      ensures old(file) != null && atPath != old(file) && file != null ==>
                && file == old(file) && start == old(start) && closed == old(closed)
                && (position > old(position) || (position == old(position) && |buffer| < old(|buffer|)))
      ensures old(file) != null && atPath != old(file) && file == null ==>
                && old(start) <= |old(file).content|
                && old(returned) + lines == Kept(Complete(old(file).content[old(start)..]), maxLineBytes)
      ensures old(file) != null ==>
                && old(file).Whole() == old(file.Whole()) && old(file.content) <= old(file).content
                && (old(file.arrivals) == [] ==> old(file).arrivals == [] && old(file).content == old(file.content))
      ensures atPath != null ==>
                && atPath.Whole() == old(atPath.Whole()) && old(atPath.content) <= atPath.content
      // Once the persisted position describes the open file, it keeps doing so.
      ensures file != null && old(file) == file && old(tracked) ==> tracked
      ensures file != null && old(file) == null ==>
                (LeadsTo(old(Effective()), file.inode, old(|atPath.content|), start) ==> tracked)
      // The state file only changes by committing.
      ensures !persist ==> unchanged(stateFile)
      ensures persist && file != null ==> pendingState == None
      // An empty batch of a followed file means its end was reached, or over-long lines were dropped.
      ensures file != null && lines == [] ==> AtEnd(old(if atPath == null then [] else atPath.arrivals), atPath)
                                              || droppedLines > old(droppedLines)
                                              || (old(file) != null && atPath != old(file))
    {
      hide TailState.Settled, TailState.Overlong, Complete, Partial, Kept, Join, AllFit, Flatten;
      hide LeadsTo, SeekOffset, OpenedAt;
      if file != null && atPath != file {
        lines := DrainRotated(persist);
        return;
      }
      if file == null {
        if atPath == null {
          lines := [];
          Empty(Returned());
          return;
        }
        OpenAtSavedOffset(atPath);
      }
      ghost var before := returned;
      lines := DrainOpenFile();
      Assoc(closed, before, lines);
      Empty(closed);
      Empty(lines);
      if persist {
        CommitOffset();
      }
    }

    /** One batch of a rotated file, which is closed once its end is reached. */
    method DrainRotated(persist: bool) returns (lines: seq<Bytes>)
      requires Valid() && file != null
      modifies this, stateFile, file
      ensures Valid() && |lines| <= maxBatchLines && Returned() == old(Returned()) + lines
      ensures file != null ==>
                && file == old(file) && start == old(start) && closed == old(closed) && (old(tracked) ==> tracked)
                && (position > old(position) || (position == old(position) && |buffer| < old(|buffer|)))
      ensures file == null ==>
                && old(start) <= |old(file).content|
                && old(returned) + lines == Kept(Complete(old(file).content[old(start)..]), maxLineBytes)
      ensures old(file).Whole() == old(file.Whole()) && old(file.content) <= old(file).content
      ensures old(file.arrivals) == [] ==> old(file).arrivals == [] && old(file).content == old(file.content)
      ensures !persist ==> unchanged(stateFile)
      ensures persist ==> pendingState == None
    {
      hide TailState.Settled, TailState.Overlong, Complete, Partial, Kept, Join, AllFit, Flatten;
      hide LeadsTo, SeekOffset;
      lines := DrainOpenFile();
      Assoc(closed, old(returned), lines);
      if atEof {
        assert Consumed() == file.content[start..];
        SettledRefines(Consumed(), buffer, droppingBytes, returned, Lim());
        Empty(returned);
        file, buffer, droppingBytes := null, [], None;
        closed, returned, droppedBefore := closed + returned, [], droppedLines;
        Empty(closed);
      }
      if persist {
        CommitOffset();
      }
    }

    /** Poll until a rotated file that is no longer written is exhausted, then once more. However
        many batches that takes, they are together exactly its remaining lines within the bound, in
        order, and the file now at the path is opened at its first byte. */
    method FollowRotation(next: LogFile) returns (batches: seq<seq<Bytes>>, first: seq<Bytes>)
      requires Valid() && file != null && file.arrivals == [] && next.inode != inode
      requires stateFile.state.Some? ==> stateFile.state.value.inode != next.inode
      modifies this, stateFile, file, next
      ensures stateFile.state == old(stateFile.state)
      ensures Valid() && file == next && start == 0 && returned == first
      ensures old(start) <= |old(file).content| && old(file).content == old(file.content)
      ensures old(returned) + Concat(batches) == Kept(Complete(old(file).content[old(start)..]), maxLineBytes)
      ensures forall b <- batches :: |b| <= maxBatchLines
    {
      hide TailState.Settled, TailState.Overlong, Complete, Partial, Kept, Flatten;
      var was := file;
      ghost var before := returned;
      batches := [];
      Empty(returned);
      while file != null
        invariant Valid() && was.content == old(file.content) && was.arrivals == []
        invariant stateFile.state == old(stateFile.state) && before == old(returned)
        invariant forall b <- batches :: |b| <= maxBatchLines
        invariant file != null ==> file == was && start == old(start) && returned == before + Concat(batches)
        invariant file == null ==>
                    && old(start) <= |was.content|
                    && before + Concat(batches) == Kept(Complete(was.content[old(start)..]), maxLineBytes)
        decreases file != null, if file != null then |was.content| - position else 0, |buffer|
      {
        ghost var soFar := returned;
        assert was.Whole() == was.content + Flatten([]);
        ghost var lifetime, earlier := Returned(), closed;
        var lines := ReadNewLines(next, false);
        if file != null {
          Assoc(earlier, soFar, lines);
          CancelLeft(earlier, returned, soFar + lines);
        }
        ConcatPush(batches, lines);
        Assoc(before, Concat(batches), lines);
        batches := batches + [lines];
      }
      first := ReadNewLines(next, false);
    }

    /** Persist the position reached, if it is not yet. */
    method CommitOffset()
      requires Valid()
      modifies this`pendingState, stateFile
      ensures Valid() && pendingState == None
      ensures stateFile.state == old(Effective())
    {
      if pendingState.None? {
        return;
      }
      var state := pendingState;
      pendingState := None;
      stateFile.state := state;
    }

    method OpenAtSavedOffset(atPath: LogFile)
      requires Valid() && file == null
      modifies this
      ensures Valid() && file == atPath && returned == [] && closed == old(closed)
      ensures start == position && OpenedAt(stateFile.state, atPath.inode, |atPath.content|, start)
      ensures start == SeekOffset(stateFile.state, atPath.inode, |atPath.content|)
      ensures pendingState == old(pendingState) && droppedLines == old(droppedLines)
      ensures tracked <==> LeadsTo(Effective(), inode, |atPath.content|, position)
    {
      file, inode := atPath, atPath.inode;
      position := SeekOffset(stateFile.state, atPath.inode, |atPath.content|);
      SeekIsWhereOpened(stateFile.state, atPath.inode, |atPath.content|);
      start := position;
      droppedBefore := droppedLines;
      tracked := LeadsTo(Effective(), inode, |atPath.content|, position);
      assert Consumed() == [];
    }

    /** Read in bounded chunks until a batch is buffered or the file ends. */
    method DrainOpenFile() returns (lines: seq<Bytes>)
      requires Valid() && file != null
      modifies this, file
      ensures Valid() && file == old(file) && start == old(start) && closed == old(closed)
      ensures returned == old(returned) + lines && |lines| <= maxBatchLines && old(position) <= position
      ensures file.Whole() == old(file.Whole()) && old(file.content) <= file.content
      ensures old(file.arrivals) == [] ==> file.arrivals == [] && file.content == old(file.content)
      ensures atEof ==> position == |file.content| && Complete(buffer) == []
      ensures droppingBytes.Some? ==> atEof
      ensures !atEof ==> position > old(position) || (position == old(position) && |buffer| < old(|buffer|))
      ensures lines != [] ==> tracked
      ensures old(tracked) ==> tracked
      ensures atEof ==> Polled(old(file.arrivals), file.arrivals)
      ensures lines == [] ==> atEof || droppedLines > old(droppedLines)
    {
      hide TailState.Settled, TailState.Reading, TailState.Overlong, Complete, Partial, Kept, Join, AllFit, Flatten;
      hide LeadsTo, SeekOffset;
      SettledIsReading(Consumed(), buffer, droppingBytes, returned, Lim());
      SettledFacts(Consumed(), buffer, droppingBytes, returned, Lim());
      KeptFit(Complete(buffer), maxLineBytes);
      var droppedBytes := FillBuffer();
      ReadingFacts(Consumed(), buffer, droppingBytes, returned, Lim());
      if tracked {
        LeadsToGrows(old(Effective()), inode, old(|file.content|), |file.content|, old(position - |buffer|));
      }
      lines := TakeBatch(droppedBytes);
    }

    /** Read chunks into the buffer until it holds a batch or the file ends. */
    method FillBuffer() returns (droppedBytes: nat)
      requires readChunkBytes >= 1 && maxBatchLines >= 1 && maxLineBytes == 4 * readChunkBytes
      requires file != null && start <= position <= |file.content|
      requires Reading(Consumed(), buffer, droppingBytes, returned, Lim())
      modifies this`position, this`buffer, this`droppingBytes, this`droppedLines, this`atEof, file
      ensures file.Whole() == old(file.Whole()) && old(file.content) <= file.content
      ensures old(file.arrivals) == [] ==> file.arrivals == [] && file.content == old(file.content)
      ensures old(position) <= position <= |file.content|
      ensures Reading(Consumed(), buffer, droppingBytes, returned, Lim())
      ensures droppedLines + Overlong(buffer, maxLineBytes) - Overlong(Consumed(), maxLineBytes)
              == old(droppedLines + Overlong(buffer, maxLineBytes) - Overlong(Consumed(), maxLineBytes))
      ensures position - |buffer| == old(position - |buffer|) + droppedBytes
      ensures position == old(position) ==> buffer == old(buffer)
      ensures atEof ==> position == |file.content| && |Complete(buffer)| < maxBatchLines
      ensures !atEof ==> |Complete(buffer)| >= maxBatchLines
      ensures atEof ==> Polled(old(file.arrivals), file.arrivals)
      ensures droppedLines >= old(droppedLines)
    {
      hide TailState.Reading, TailState.Overlong, Complete, Partial, Flatten;
      atEof := false;
      droppedBytes := 0;
      while |Complete(buffer)| < maxBatchLines
        invariant file.Whole() == old(file.Whole()) && old(file.content) <= file.content
        invariant old(file.arrivals) == [] ==> file.arrivals == [] && file.content == old(file.content)
        invariant start <= old(position) <= position <= |file.content|
        invariant Reading(Consumed(), buffer, droppingBytes, returned, Lim())
        invariant droppedLines + Overlong(buffer, maxLineBytes) - Overlong(Consumed(), maxLineBytes)
                  == old(droppedLines + Overlong(buffer, maxLineBytes) - Overlong(Consumed(), maxLineBytes))
        invariant position - |buffer| == old(position - |buffer|) + droppedBytes
        invariant position == old(position) ==> buffer == old(buffer)
        invariant !atEof && droppedLines >= old(droppedLines) && |file.arrivals| <= old(|file.arrivals|)
        decreases |file.Whole()| - position
      {
        ghost var before := Consumed();
        var chunk := file.Read(position, readChunkBytes);
        assert Consumed() == before;
        if chunk == [] {
          atEof := true;
          break;
        }
        position := position + |chunk|;
        assert Consumed() == before + chunk;
        var dropped := TakeChunk(before, chunk);
        droppedBytes := droppedBytes + dropped;
      }
    }

    /** Fold one chunk into the buffer, dropping what belongs to an over-long line. */
    method TakeChunk(ghost before: Bytes, chunk: Bytes) returns (dropped: nat)
      requires readChunkBytes >= 1 && maxBatchLines >= 1 && maxLineBytes == 4 * readChunkBytes
      requires Reading(before, buffer, droppingBytes, returned, Lim())
      requires |Complete(buffer)| < maxBatchLines && 0 < |chunk| <= readChunkBytes
      modifies this`buffer, this`droppingBytes, this`droppedLines
      ensures Reading(before + chunk, buffer, droppingBytes, returned, Lim())
      ensures droppedLines + Overlong(buffer, maxLineBytes) - Overlong(before + chunk, maxLineBytes)
              == old(droppedLines + Overlong(buffer, maxLineBytes)) - Overlong(before, maxLineBytes)
      ensures |buffer| + dropped == old(|buffer|) + |chunk| && droppedLines >= old(droppedLines)
    {
      hide TailState.Reading, TailState.Overlong, Complete, Partial, Kept;
      ChunkRead(before, chunk, buffer, droppingBytes, returned, Lim());
      var rest, consumed := SkipDroppedLine(chunk);
      buffer := buffer + rest;
      var cut := DropOversizePartial();
      dropped := consumed + cut;
    }

    /** Discard a chunk's share of a line already being dropped; count the line when it ends. */
    method SkipDroppedLine(chunk: Bytes) returns (rest: Bytes, consumed: nat)
      modifies this`droppingBytes, this`droppedLines
      ensures (rest, droppingBytes) == Skip(old(droppingBytes), chunk)
      ensures consumed + |rest| == |chunk|
      ensures droppedLines == old(droppedLines) + if old(droppingBytes).Some? && NEWLINE in chunk then 1 else 0
    {
      if droppingBytes.None? {
        return chunk, 0;
      }
      if NEWLINE !in chunk {
        droppingBytes := Some(droppingBytes.value + |chunk|);
        return [], |chunk|;
      }
      var newline := FirstNewline(chunk);
      droppedLines := droppedLines + 1;
      droppingBytes := None;
      return chunk[newline + 1..], newline + 1;
    }

    /** Start dropping the buffer's unterminated tail once it passes the bound. */
    method DropOversizePartial() returns (dropped: nat)
      modifies this`buffer, this`droppingBytes
      ensures (buffer, droppingBytes) == Cut(old(buffer), old(droppingBytes), maxLineBytes)
      ensures dropped + |buffer| == old(|buffer|)
    {
      var partialLen := |Partial(buffer)|;
      if partialLen <= maxLineBytes {
        return 0;
      }
      buffer := buffer[..|buffer| - partialLen];
      droppingBytes := Some(partialLen);
      return partialLen;
    }

    /** Cut the buffer into lines, drop the over-long ones, return one batch and hold back the rest. */
    method TakeBatch(droppedSoFar: nat) returns (lines: seq<Bytes>)
      requires readChunkBytes >= 1 && maxBatchLines >= 1 && maxLineBytes == 4 * readChunkBytes
      requires file != null && inode == file.inode && start <= position <= |file.content|
      requires Reading(Consumed(), buffer, droppingBytes, returned, Lim())
      requires droppedLines + Overlong(buffer, maxLineBytes) == droppedBefore + Overlong(Consumed(), maxLineBytes)
      requires tracked && droppedSoFar == 0 ==> LeadsTo(Effective(), inode, |file.content|, position - |buffer|)
      modifies this`buffer, this`droppedLines, this`pendingState, this`returned, this`tracked
      ensures Valid() && |lines| <= maxBatchLines && returned == old(returned) + lines
      ensures lines == if |Kept(Complete(old(buffer)), maxLineBytes)| > maxBatchLines
                       then Kept(Complete(old(buffer)), maxLineBytes)[..maxBatchLines]
                       else Kept(Complete(old(buffer)), maxLineBytes)
      ensures |buffer| + |lines| <= old(|buffer|)
      ensures |Kept(Complete(old(buffer)), maxLineBytes)| <= maxBatchLines ==> Complete(buffer) == []
      ensures lines != [] ==> tracked
      ensures old(tracked) ==> tracked
      ensures droppedLines == old(droppedLines) + |Complete(old(buffer))| - |Kept(Complete(old(buffer)), maxLineBytes)|
      // There is a position to commit exactly when the call moved it.
      ensures pendingState == if lines == [] && droppedSoFar == 0 && |buffer| == old(|buffer|) then old(pendingState)
                              else Some(Position(inode, position - |buffer|))
    {
      hide TailState.Settled, TailState.Reading, Complete, Partial, Kept, Join, AllFit, Overlong, LeadsTo, SeekOffset;
      ghost var consumed, whole := Consumed(), buffer;
      var partial := Partial(buffer);
      var kept, droppedBytes := KeepWithinBound(Complete(buffer));
      var n := if |kept| > maxBatchLines then maxBatchLines else |kept|;
      Settle(consumed, whole, droppingBytes, returned, Lim());
      RemainderParts(whole, n, maxLineBytes);
      KeptFit(Complete(Remainder(whole, n, maxLineBytes)), maxLineBytes);
      SettledFacts(consumed, Remainder(whole, n, maxLineBytes), droppingBytes, returned + kept[..n], Lim());
      var heldBack := kept[n..];
      lines := kept[..n];
      buffer := Join(heldBack) + partial;
      assert buffer == Remainder(whole, n, maxLineBytes);
      returned := returned + lines;
      BatchSizes(whole, kept, n, droppedBytes);
      OverlongIs(whole, maxLineBytes);
      OverlongIs(buffer, maxLineBytes);
      LeadsToItself(inode, |file.content|, position - |buffer|);
      if lines != [] || droppedSoFar + droppedBytes > 0 {
        pendingState := Some(Position(inode, position - |buffer|));
        tracked := true;
      } else {
        NothingTaken(kept, n);
      }
    }

    /** Drop the over-long lines, counting each. */
    method KeepWithinBound(parts: seq<Bytes>) returns (kept: seq<Bytes>, droppedBytes: nat)
      modifies this`droppedLines
      ensures kept == Kept(parts, maxLineBytes)
      ensures droppedLines == old(droppedLines) + |parts| - |kept|
      ensures droppedBytes >= |parts| - |kept| && droppedBytes + |Join(kept)| == |Join(parts)|
    {
      kept, droppedBytes := [], 0;
      var i := 0;
      while i < |parts|
        invariant 0 <= i <= |parts|
        invariant kept == Kept(parts[..i], maxLineBytes)
        invariant droppedLines == old(droppedLines) + i - |kept|
        invariant droppedBytes >= i - |kept| && droppedBytes + |Join(kept)| == |Join(parts[..i])|
      {
        assert parts[..i + 1] == parts[..i] + [parts[i]];
        assert parts[..i + 1][..i] == parts[..i];
        JoinPush(parts[..i], parts[i]);
        JoinPush(kept, parts[i]);
        if |parts[i]| > maxLineBytes {
          droppedBytes := droppedBytes + |parts[i]| + 1;
          droppedLines := droppedLines + 1;
        } else {
          kept := kept + [parts[i]];
        }
        i := i + 1;
      }
      assert parts[..i] == parts;
    }
  }
}
