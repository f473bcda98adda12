/** Byte strings cut into newline-terminated lines: the plain specification the chunked tailer is
    proved to refine. */
module Lines {
  import opened Seqs

  newtype Byte = b: int | 0 <= b < 256
  type Bytes = seq<Byte>

  const NEWLINE: Byte := 10

  /** The complete lines of `s`, newline stripped, in order. */
  function Complete(s: Bytes): (lines: seq<Bytes>)
    ensures |lines| <= |s|
  {
    if s == [] then []
    else if s[|s| - 1] == NEWLINE then Complete(s[..|s| - 1]) + [Partial(s[..|s| - 1])]
    else Complete(s[..|s| - 1])
  }

  /** What follows the last newline of `s`. */
  function Partial(s: Bytes): (tail: Bytes)
    ensures |tail| <= |s| && NEWLINE !in tail
  {
    if s == [] || s[|s| - 1] == NEWLINE then []
    else Partial(s[..|s| - 1]) + [s[|s| - 1]]
  }

  /** Terminate every line and concatenate: the inverse of `Complete`. */
  function Join(lines: seq<Bytes>): Bytes {
    if lines == [] then [] else Join(lines[..|lines| - 1]) + lines[|lines| - 1] + [NEWLINE]
  }

  /** The lines no longer than `max`, in order. */
  function Kept(lines: seq<Bytes>, max: nat): (kept: seq<Bytes>)
    ensures |kept| <= |lines|
  {
    if lines == [] then []
    else if |lines[|lines| - 1]| <= max then Kept(lines[..|lines| - 1], max) + [lines[|lines| - 1]]
    else Kept(lines[..|lines| - 1], max)
  }

  /** Every line of `lines` is within the bound. */
  ghost predicate AllFit(lines: seq<Bytes>, max: nat) {
    forall i :: 0 <= i < |lines| ==> |lines[i]| <= max
  }

  /** No line holds a newline. */
  ghost predicate Proper(lines: seq<Bytes>) {
    forall i :: 0 <= i < |lines| ==> NEWLINE !in lines[i]
  }

  lemma {:induction false} KeptFit(lines: seq<Bytes>, max: nat)
    ensures AllFit(Kept(lines, max), max)
    ensures AllFit(lines, max) <==> Kept(lines, max) == lines
  {
    if lines != [] {
      var front, last := lines[..|lines| - 1], lines[|lines| - 1];
      KeptFit(front, max);
      assert lines == front + [last];
      if Kept(lines, max) == lines {
        assert |last| <= max && Kept(lines, max)[..|front|] == front;
      }
    }
  }

  /** Splitting after one more byte. */
  lemma SplitPush(s: Bytes, b: Byte)
    ensures Complete(s + [b]) == if b == NEWLINE then Complete(s) + [Partial(s)] else Complete(s)
    ensures Partial(s + [b]) == if b == NEWLINE then [] else Partial(s) + [b]
  {
    assert (s + [b])[..|s|] == s;
  }

  lemma {:induction false} SplitAppend(a: Bytes, b: Bytes)
    ensures Complete(a + b) == Complete(a) + Complete(Partial(a) + b)
    ensures Partial(a + b) == Partial(Partial(a) + b)
  {
    var p := Partial(a);
    if b == [] {
      assert a + b == a && p + b == p;
      NoNewlineNoLines(p);
    } else {
      var front, last := b[..|b| - 1], b[|b| - 1];
      hide Complete, Partial;
      Rejoin(b);
      Assoc(a, front, [last]);
      Assoc(p, front, [last]);
      SplitAppend(a, front);
      SplitPush(a + front, last);
      SplitPush(p + front, last);
      Assoc(Complete(a), Complete(p + front), [Partial(p + front)]);
    }
  }

  lemma {:induction false} NoNewlineNoLines(s: Bytes)
    requires NEWLINE !in s
    ensures Complete(s) == [] && Partial(s) == s
  {
    if s != [] {
      var front, last := s[..|s| - 1], s[|s| - 1];
      NoNewlineNoLines(front);
      Rejoin(s);
      SplitPush(front, last);
      hide Complete, Partial;
    }
  }

  /** When `a` ends on a line boundary, splitting distributes over concatenation. */
  lemma SplitAligned(a: Bytes, b: Bytes)
    requires Partial(a) == []
    ensures Complete(a + b) == Complete(a) + Complete(b) && Partial(a + b) == Partial(b)
  {
    hide Complete, Partial;
    SplitAppend(a, b);
    Empty(b);
  }

  lemma {:induction false} JoinSplit(s: Bytes)
    ensures Join(Complete(s)) + Partial(s) == s
  {
    if s != [] {
      var front, last := s[..|s| - 1], s[|s| - 1];
      JoinSplit(front);
      Rejoin(s);
      SplitPush(front, last);
      JoinPush(Complete(front), Partial(front));
      hide Complete, Partial, Join;
      Assoc(Join(Complete(front)), Partial(front), [last]);
      Empty(Join(Complete(front)) + Partial(front) + [NEWLINE]);
    }
  }

  lemma JoinPush(lines: seq<Bytes>, line: Bytes)
    ensures Join(lines + [line]) == Join(lines) + line + [NEWLINE]
  {
    assert (lines + [line])[..|lines|] == lines;
  }

  lemma {:induction false} JoinAppend(a: seq<Bytes>, b: seq<Bytes>)
    ensures Join(a + b) == Join(a) + Join(b)
  {
    if b == [] {
      assert a + b == a;
    } else {
      var front, last := b[..|b| - 1], b[|b| - 1];
      JoinAppend(a, front);
      Rejoin(b);
      Assoc(a, front, [last]);
      JoinPush(a + front, last);
      JoinPush(front, last);
      hide Join;
      Assoc(Join(a), Join(front), last);
      Assoc(Join(a), Join(front) + last, [NEWLINE]);
    }
  }

  /** Lines never contain a newline, and each is shorter than the string it was cut from. */
  lemma {:induction false} LinesAreProper(s: Bytes)
    ensures Proper(Complete(s)) && AllFit(Complete(s), if |s| == 0 then 0 else |s| - 1)
  {
    if s != [] { LinesAreProper(s[..|s| - 1]); }
  }

  /** `Complete` and `Partial` undo `Join`. */
  lemma {:induction false} SplitJoin(lines: seq<Bytes>, tail: Bytes)
    requires NEWLINE !in tail
    requires Proper(lines)
    ensures Complete(Join(lines) + tail) == lines && Partial(Join(lines) + tail) == tail
  {
    JoinIsAligned(lines);
    SplitAligned(Join(lines), tail);
    NoNewlineNoLines(tail);
  }

  /** Appending one whole line. */
  lemma PushLine(s: Bytes, line: Bytes)
    requires Partial(s) == [] && NEWLINE !in line
    ensures Complete(s + line + [NEWLINE]) == Complete(s) + [line] && Partial(s + line + [NEWLINE]) == []
  {
    SplitAligned(s, line);
    NoNewlineNoLines(line);
    Empty(Complete(s));
    SplitPush(s + line, NEWLINE);
  }

  lemma {:induction false} JoinIsAligned(lines: seq<Bytes>)
    requires Proper(lines)
    ensures Complete(Join(lines)) == lines && Partial(Join(lines)) == []
  {
    if lines != [] {
      var front, last := lines[..|lines| - 1], lines[|lines| - 1];
      JoinIsAligned(front);
      PushLine(Join(front), last);
      JoinPush(front, last);
      hide Join, Complete, Partial;
      Rejoin(lines);
    }
  }

  lemma {:induction false} KeptAppend(a: seq<Bytes>, b: seq<Bytes>, max: nat)
    ensures Kept(a + b, max) == Kept(a, max) + Kept(b, max)
  {
    if b == [] {
      assert a + b == a;
    } else {
      KeptAppend(a, b[..|b| - 1], max);
      assert (a + b)[..|a + b| - 1] == a + b[..|b| - 1];
    }
  }

  /** Cutting at the first newline. */
  lemma FirstLine(head: Bytes, rest: Bytes)
    requires NEWLINE !in head
    ensures Complete(head + [NEWLINE] + rest) == [head] + Complete(rest)
    ensures Partial(head + [NEWLINE] + rest) == Partial(rest)
  {
    NoNewlineNoLines(head);
    SplitPush(head, NEWLINE);
    Empty([head]);
    SplitAligned(head + [NEWLINE], rest);
  }

  /** A string is no longer than its lines (terminated) at their maximum length, plus its tail. */
  lemma {:induction false} SizeFromLines(s: Bytes, perLine: nat)
    requires perLine >= 1 && AllFit(Complete(s), perLine - 1)
    ensures |s| <= |Complete(s)| * perLine + |Partial(s)|
  {
    JoinSplit(s);
    JoinSize(Complete(s), perLine);
  }

  lemma {:induction false} JoinSize(lines: seq<Bytes>, perLine: nat)
    requires perLine >= 1 && AllFit(lines, perLine - 1)
    ensures |Join(lines)| <= |lines| * perLine
  {
    if lines != [] {
      JoinSize(lines[..|lines| - 1], perLine);
      assert |lines| * perLine == (|lines| - 1) * perLine + perLine;
    }
  }
}
