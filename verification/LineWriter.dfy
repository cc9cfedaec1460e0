/** Splitting a command's output into log lines while it arrives in arbitrary pieces. */
module LineWriter {
  import opened Wrappers

  const CR: byte := 13
  const LF: byte := 10

  predicate IsBreak(c: byte) {
    c == CR || c == LF
  }

  lemma BreaksAreCrAndLf(c: byte)
    ensures IsBreak(c) <==> c as int as char in "\r\n"
  {
  }

  /** The position of the first line break, or -1. */
  function FirstBreak(s: Bytes): (i: int)
    ensures -1 <= i < |s|
    ensures i >= 0 ==> IsBreak(s[i])
    ensures forall j :: 0 <= j < (if i < 0 then |s| else i) ==> !IsBreak(s[j])
  {
    if s == [] then -1
    else if IsBreak(s[0]) then 0
    else
      var i := FirstBreak(s[1..]);
      assert forall j :: 1 <= j < |s| ==> s[j] == s[1..][j - 1];
      if i < 0 then -1 else i + 1
  }

  /** The lines of a stream, up to its last break; empty ones are not logged. */
  function Lines(s: Bytes): seq<Bytes> {
    if s == [] then []
    else
      var before, last := s[..|s| - 1], s[|s| - 1];
      if IsBreak(last) && Rest(before) != [] then Lines(before) + [Rest(before)] else Lines(before)
  }

  /** What follows the last break. */
  function Rest(s: Bytes): Bytes {
    if s == [] || IsBreak(s[|s| - 1]) then [] else Rest(s[..|s| - 1]) + [s[|s| - 1]]
  }

  lemma {:induction false} WithoutBreaks(s: Bytes)
    requires forall c :: c in s ==> !IsBreak(c)
    ensures Lines(s) == [] && Rest(s) == s
  {
    if s != [] {
      WithoutBreaks(s[..|s| - 1]);
      assert s[|s| - 1] in s;
    }
  }

  lemma {:induction false} RestHasNoBreaks(s: Bytes)
    ensures forall c :: c in Rest(s) ==> !IsBreak(c)
  {
    if s != [] {
      RestHasNoBreaks(s[..|s| - 1]);
    }
  }

  lemma OneByteMore(s: Bytes, c: byte)
    ensures Rest(s + [c]) == if IsBreak(c) then [] else Rest(s) + [c]
    ensures Lines(s + [c]) == if IsBreak(c) && Rest(s) != [] then Lines(s) + [Rest(s)] else Lines(s)
  {
    assert (s + [c])[..|s|] == s;
  }

  lemma SameByteMore(done: seq<Bytes>, whole: Bytes, part: Bytes, c: byte)
    requires Lines(whole) == done + Lines(part) && Rest(whole) == Rest(part)
    ensures Lines(whole + [c]) == done + Lines(part + [c]) && Rest(whole + [c]) == Rest(part + [c])
  {
    OneByteMore(whole, c);
    OneByteMore(part, c);
  }

  /** Splitting can stop anywhere and go on with the rest. */
  lemma {:induction false} SplitAnywhere(a: Bytes, b: Bytes)
    ensures Lines(a + b) == Lines(a) + Lines(Rest(a) + b)
    ensures Rest(a + b) == Rest(Rest(a) + b)
  {
    if b == [] {
      assert a + b == a && Rest(a) + b == Rest(a);
      RestHasNoBreaks(a);
      WithoutBreaks(Rest(a));
    } else {
      var before, last := b[..|b| - 1], b[|b| - 1];
      SplitAnywhere(a, before);
      SameByteMore(Lines(a), a + before, Rest(a) + before, last);
      assert a + b == (a + before) + [last] && Rest(a) + b == (Rest(a) + before) + [last];
    }
  }

  /** A segment, its break, and what follows. */
  lemma SplitAtBreak(line: Bytes, c: byte, tail: Bytes)
    requires IsBreak(c) && forall x :: x in line ==> !IsBreak(x)
    ensures Lines(line + [c] + tail) == (if line != [] then [line] else []) + Lines(tail)
    ensures Rest(line + [c] + tail) == Rest(tail)
  {
    WithoutBreaks(line);
    OneByteMore(line, c);
    SplitAnywhere(line + [c], tail);
    assert [] + tail == tail;
  }

  /** Taking one line off the front of the buffer, with its break at position i. */
  lemma OneLine(buf: Bytes, i: nat)
    requires i < |buf| && IsBreak(buf[i]) && forall j :: 0 <= j < i ==> !IsBreak(buf[j])
    ensures Lines(buf) == (if i > 0 then [buf[..i]] else []) + Lines(buf[i + 1..])
    ensures Rest(buf) == Rest(buf[i + 1..])
  {
    var line, c, tail := buf[..i], buf[i], buf[i + 1..];
    forall x | x in line ensures !IsBreak(x) {
      var j :| 0 <= j < i && buf[j] == x;
    }
    SplitAtBreak(line, c, tail);
    CutAt(buf, i);
  }

  lemma CutAt(s: Bytes, i: nat)
    requires i < |s|
    ensures s[..i] + [s[i]] + s[i + 1..] == s
  {
  }

  class Writer {
    var buf: Bytes
    /** The lines logged so far, at the level the writer was made for. */
    var logged: seq<Bytes>

    constructor ()
      ensures buf == [] && logged == []
    {
      buf, logged := [], [];
    }

    method Write(p: Bytes) returns (n: nat)
      modifies this
      ensures n == |p|
      ensures logged == old(logged) + Lines(old(buf) + p)
      ensures buf == Rest(old(buf) + p)
    {
      buf := buf + p;
      var idx := FirstBreak(buf);
      while idx >= 0
        invariant idx == FirstBreak(buf)
        invariant logged + Lines(buf) == old(logged) + Lines(old(buf) + p)
        invariant Rest(buf) == Rest(old(buf) + p)
        decreases |buf|
      {
        ghost var before, soFar := buf, logged;
        var line := buf[..idx];
        buf := buf[idx + 1..];
        if |line| > 0 {
          logged := logged + [line];
        }
        OneLine(before, idx);
        assert logged + Lines(buf) == soFar + Lines(before);
        idx := FirstBreak(buf);
      }
      WithoutBreaks(buf);
      return |p|;
    }
  }

  function Joined(pieces: seq<Bytes>): Bytes {
    if pieces == [] then [] else Joined(pieces[..|pieces| - 1]) + pieces[|pieces| - 1]
  }

  /** The lines logged, and the buffer left, after a series of Write calls. */
  function Streamed(pieces: seq<Bytes>): (seq<Bytes>, Bytes) {
    if pieces == [] then ([], [])
    else
      var (logged, buf) := Streamed(pieces[..|pieces| - 1]);
      (logged + Lines(buf + pieces[|pieces| - 1]), Rest(buf + pieces[|pieces| - 1]))
  }

  /** MAIN: however a stream is cut into Write calls, the log and the buffer are those of the whole. */
  lemma {:induction false} PiecesDoNotMatter(pieces: seq<Bytes>)
    ensures Streamed(pieces) == (Lines(Joined(pieces)), Rest(Joined(pieces)))
  {
    if pieces != [] {
      PiecesDoNotMatter(pieces[..|pieces| - 1]);
      SplitAnywhere(Joined(pieces[..|pieces| - 1]), pieces[|pieces| - 1]);
    }
  }

  /** A cut of the stream: segments without breaks, each but the last followed by its break. */
  ghost predicate IsCut(s: Bytes, segments: seq<Bytes>, breaks: Bytes) {
    && |segments| == |breaks| + 1
    && (forall k :: 0 <= k < |segments| ==> forall c :: c in segments[k] ==> !IsBreak(c))
    && (forall k :: 0 <= k < |breaks| ==> IsBreak(breaks[k]))
    && s == Glued(segments, breaks)
  }

  function Glued(segments: seq<Bytes>, breaks: Bytes): Bytes
    requires |segments| == |breaks| + 1
  {
    if breaks == [] then segments[0] else segments[0] + [breaks[0]] + Glued(segments[1..], breaks[1..])
  }

  function NonEmpty(segments: seq<Bytes>): seq<Bytes> {
    if segments == [] then []
    else (if segments[0] != [] then [segments[0]] else []) + NonEmpty(segments[1..])
  }

  /** MAIN: for every cut of a stream at its breaks, the lines are the non-empty segments before
      the last, in order, and the rest is the last segment. */
  lemma {:induction false} LinesAreSegments(s: Bytes, segments: seq<Bytes>, breaks: Bytes)
    requires IsCut(s, segments, breaks)
    ensures Lines(s) == NonEmpty(segments[..|breaks|])
    ensures Rest(s) == segments[|breaks|]
    decreases |breaks|
  {
    if breaks == [] {
      WithoutBreaks(segments[0]);
      assert segments[..0] == [];
    } else {
      var tail := Glued(segments[1..], breaks[1..]);
      SplitAtBreak(segments[0], breaks[0], tail);
      LinesAreSegments(tail, segments[1..], breaks[1..]);
      assert segments[..|breaks|][1..] == segments[1..][..|breaks| - 1];
      assert NonEmpty(segments[..|breaks|])
          == (if segments[0] != [] then [segments[0]] else []) + NonEmpty(segments[1..][..|breaks| - 1]);
    }
  }

  /** Every stream has such a cut. */
  lemma {:induction false} EveryStreamCuts(s: Bytes) returns (segments: seq<Bytes>, breaks: Bytes)
    ensures IsCut(s, segments, breaks)
    decreases |s|
  {
    var i := FirstBreak(s);
    if i < 0 {
      segments, breaks := [s], [];
    } else {
      var more, tail := EveryStreamCuts(s[i + 1..]);
      segments, breaks := [s[..i]] + more, [s[i]] + tail;
      assert segments[1..] == more && breaks[1..] == tail;
      assert s == s[..i] + [s[i]] + s[i + 1..];
      forall k, c | 0 <= k < |segments| && c in segments[k] ensures !IsBreak(c) {
        if k == 0 {
          var j :| 0 <= j < i && s[j] == c;
        } else {
          assert segments[k] == more[k - 1];
        }
      }
    }
  }
}
