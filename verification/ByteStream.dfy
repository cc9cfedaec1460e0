/** Copying a payload through the throttled reader and the progress writer. */
module ByteStream {
  import opened Wrappers
  import opened ProgressWriter

  const CHUNK := 32 * 1024

  datatype ReadError = NoError | EndOfFile | Fault

  /** What the environment decides about one read: how many bytes are there, whether the end is
      reported together with the last bytes, and whether the read or the limiter fails. */
  datatype ReadEvent = ReadEvent(available: nat, earlyEnd: bool, fault: bool, waitFault: bool)

  /** What happens to a parked write: somebody calls, or the select looks at its two channels; with
      tokens in both it may take either. */
  datatype Wake = Hears(call: Call) | Looks(preferCancel: bool)

  /** What it decides about one write: the calls made before each of its steps, what happens while
      it is parked, how much the underlying write takes, and whether that fails. */
  datatype WriteEvent = WriteEvent(beforeCheck: seq<Call>, beforePause: seq<Call>, parked: seq<Wake>,
                                   beforeWrite: seq<Call>, takes: nat, fault: bool)

  /** Whether a write gets to the underlying writer, and the control fields by then. */
  datatype Gate = Open | Shut | Waiting
  datatype Passage = Passage(gate: Gate, control: Control)

  function Waited(c: Control, d: Direction, parked: seq<Wake>): Passage
    decreases |parked|
  {
    if parked == [] then Passage(Waiting, c)
    else
      match parked[0]
      case Hears(call) => Waited(Called(c, d, call).control, d, parked[1..])
      case Looks(preferCancel) =>
        if c.resumeToken && !(preferCancel && c.cancelToken) then Passage(Open, c.(resumeToken := false))
        else if c.cancelToken then Passage(Shut, c.(cancelToken := false))
        else Waited(c, d, parked[1..])
  }

  function Passed(c: Control, d: Direction, event: WriteEvent): Passage {
    var checked := AfterCalls(c, d, event.beforeCheck);
    if checked.canceled then Passage(Shut, checked)
    else
      var atPause := AfterCalls(checked, d, event.beforePause);
      if atPause.paused then Waited(atPause, d, event.parked) else Passage(Open, atPause)
  }

  /** A cancel token comes from a cancel. */
  predicate TokenFits(c: Control) {
    c.cancelToken ==> c.canceled
  }

  /** Between its check and its end, a write finds the token of any cancel. */
  predicate TokenWaits(c: Control) {
    c.canceled ==> c.cancelToken
  }

  /** The pause is in force, or a token is there to be taken. */
  predicate HasReasonToWait(c: Control) {
    (c.paused && !c.canceled) || c.resumeToken || c.cancelToken
  }

  lemma {:induction false} CallsKeepTokens(c: Control, d: Direction, calls: seq<Call>)
    ensures TokenFits(c) ==> TokenFits(AfterCalls(c, d, calls))
    ensures TokenWaits(c) ==> TokenWaits(AfterCalls(c, d, calls))
    ensures c.canceled ==> AfterCalls(c, d, calls).canceled
    ensures CallCancel !in calls ==> AfterCalls(c, d, calls).canceled == c.canceled
    decreases |calls|
  {
    if calls != [] {
      CallsKeepTokens(Called(c, d, calls[0]).control, d, calls[1..]);
    }
  }

  lemma {:induction false} WaitingIsJust(c: Control, d: Direction, parked: seq<Wake>)
    requires TokenFits(c) && TokenWaits(c) && (!c.paused ==> c.resumeToken)
    ensures var r := Waited(c, d, parked);
            && TokenFits(r.control) && (r.gate.Shut? ==> r.control.canceled)
            && (r.gate.Waiting? ==> TokenWaits(r.control) && (!r.control.paused ==> r.control.resumeToken))
            && (!c.canceled && Hears(CallCancel) !in parked ==> !r.control.canceled)
            && (r.gate.Waiting? && parked != [] && parked[|parked| - 1].Looks? ==>
                  !r.control.resumeToken && !r.control.cancelToken)
            && (r.gate.Open? && !c.resumeToken ==>
                  exists call :: Hears(call) in parked && (call.CallResume? || call.CallCancel?))
    decreases |parked|
  {
    if parked != [] {
      match parked[0]
      case Hears(call) =>
        var next := Called(c, d, call).control;
        WaitingIsJust(next, d, parked[1..]);
        if next.resumeToken && !c.resumeToken {
          assert Hears(call) in parked && (call.CallResume? || call.CallCancel?);
        }
      case Looks(_) =>
        WaitingIsJust(c, d, parked[1..]);
    }
  }

  /** The calls a parked write hears of. */
  function HeardOf(parked: seq<Wake>): seq<Call> {
    if parked == [] then []
    else HeardOf(parked[..|parked| - 1]) + if parked[|parked| - 1].Hears? then [parked[|parked| - 1].call] else []
  }

  /** The control fields when the select is at position i, if it has not been left before. */
  function HeardUpTo(c: Control, d: Direction, parked: seq<Wake>, i: nat): Control
    requires i <= |parked|
  {
    AfterCalls(c, d, HeardOf(parked[..i]))
  }

  /** At position i the select looks and finds a token. */
  ghost predicate FindsToken(c: Control, d: Direction, parked: seq<Wake>, i: nat) {
    i < |parked| && parked[i].Looks?
    && (HeardUpTo(c, d, parked, i).resumeToken || HeardUpTo(c, d, parked, i).cancelToken)
  }

  lemma {:induction false} AfterOneCallMore(c: Control, d: Direction, calls: seq<Call>, call: Call)
    ensures AfterCalls(c, d, calls + [call]) == Called(AfterCalls(c, d, calls), d, call).control
    decreases |calls|
  {
    if calls == [] {
      assert [] + [call] == [call] && [call][1..] == [];
      assert AfterCalls(Called(c, d, call).control, d, []) == Called(c, d, call).control;
    } else {
      assert (calls + [call])[1..] == calls[1..] + [call];
      AfterOneCallMore(Called(c, d, calls[0]).control, d, calls[1..], call);
    }
  }

  lemma HeardOneMore(c: Control, d: Direction, parked: seq<Wake>, i: nat)
    requires i < |parked|
    ensures HeardUpTo(c, d, parked, i + 1)
         == if parked[i].Hears? then Called(HeardUpTo(c, d, parked, i), d, parked[i].call).control
            else HeardUpTo(c, d, parked, i)
  {
    var heard := HeardOf(parked[..i]);
    assert parked[..i + 1][..i] == parked[..i] && parked[..i + 1][i] == parked[i];
    match parked[i]
    case Hears(call) =>
      assert HeardOf(parked[..i + 1]) == heard + [call];
      AfterOneCallMore(c, d, heard, call);
    case Looks(_) =>
      assert HeardOf(parked[..i + 1]) == heard + [];
      assert heard + [] == heard;
  }

  lemma OneMoreWait(c: Control, d: Direction, parked: seq<Wake>)
    requires parked != []
    ensures parked[0].Looks? && !c.resumeToken && !c.cancelToken ==> Waited(c, d, parked) == Waited(c, d, parked[1..])
    ensures parked[0].Hears? ==>
              Waited(c, d, parked) == Waited(Called(c, d, parked[0].call).control, d, parked[1..])
  {
  }

  lemma {:induction false} WaitsUntil(c: Control, d: Direction, parked: seq<Wake>, n: nat)
    requires n <= |parked| && forall i :: 0 <= i < n ==> !FindsToken(c, d, parked, i)
    ensures Waited(c, d, parked) == Waited(HeardUpTo(c, d, parked, n), d, parked[n..])
    decreases n
  {
    if n == 0 {
      assert parked[..0] == [] && parked[0..] == parked;
    } else {
      WaitsUntil(c, d, parked, n - 1);
      HeardOneMore(c, d, parked, n - 1);
      OneMoreWait(HeardUpTo(c, d, parked, n - 1), d, parked[n - 1..]);
      assert parked[n - 1..][0] == parked[n - 1] && parked[n - 1..][1..] == parked[n..];
      assert !FindsToken(c, d, parked, n - 1);
    }
  }

  /** MAIN: the select is left at the first look that finds a token, and nowhere else: it takes one token
      of the two channels, the one it prefers if there is a choice, and is shut only by the cancel. */
  lemma WaitEndsAtFirstToken(c: Control, d: Direction, parked: seq<Wake>)
    ensures forall i: nat | FindsToken(c, d, parked, i) && (forall j :: 0 <= j < i ==> !FindsToken(c, d, parked, j)) ::
              var at := HeardUpTo(c, d, parked, i);
              Waited(c, d, parked)
              == if at.cancelToken && (parked[i].preferCancel || !at.resumeToken)
                 then Passage(Shut, at.(cancelToken := false)) else Passage(Open, at.(resumeToken := false))
    ensures (forall i: nat :: !FindsToken(c, d, parked, i)) ==>
              Waited(c, d, parked) == Passage(Waiting, HeardUpTo(c, d, parked, |parked|))
  {
    forall i: nat | FindsToken(c, d, parked, i) && (forall j :: 0 <= j < i ==> !FindsToken(c, d, parked, j))
      ensures var at := HeardUpTo(c, d, parked, i);
              Waited(c, d, parked)
              == if at.cancelToken && (parked[i].preferCancel || !at.resumeToken)
                 then Passage(Shut, at.(cancelToken := false)) else Passage(Open, at.(resumeToken := false))
    {
      WaitsUntil(c, d, parked, i);
      assert parked[i..][0] == parked[i];
    }
    if forall i: nat :: !FindsToken(c, d, parked, i) {
      WaitsUntil(c, d, parked, |parked|);
      assert parked[|parked|..] == [];
    }
  }

  predicate NoCancel(event: WriteEvent) {
    && CallCancel !in event.beforeCheck && CallCancel !in event.beforePause
    && Hears(CallCancel) !in event.parked && CallCancel !in event.beforeWrite
  }

  /** The select has looked at its channels since the last call it heard of. */
  predicate LooksLast(event: WriteEvent) {
    event.parked != [] && event.parked[|event.parked| - 1].Looks?
  }

  /** The control fields as the pause check of a write sees them. */
  function AtPauseCheck(c: Control, d: Direction, event: WriteEvent): Control {
    AfterCalls(AfterCalls(c, d, event.beforeCheck), d, event.beforePause)
  }

  /** MAIN: whatever calls come between and during its steps, a write is refused only after a cancel,
      keeps waiting only while the pause is in force or a token is there to be taken, and passes a
      pause only by a leftover token, or by a resume or a cancel it hears of while it waits. */
  lemma PassageIsJust(c: Control, d: Direction, event: WriteEvent)
    requires TokenFits(c)
    ensures var r := Passed(c, d, event);
            && TokenFits(r.control) && (r.gate.Shut? ==> r.control.canceled)
            && (AfterCalls(c, d, event.beforeCheck).canceled ==> r.gate.Shut?)
            && (!AfterCalls(c, d, event.beforeCheck).canceled && !AtPauseCheck(c, d, event).paused ==> r.gate.Open?)
            && (r.gate.Waiting? ==> HasReasonToWait(r.control))
            && (r.gate.Waiting? && LooksLast(event) ==> r.control.paused && !r.control.canceled)
            && (!c.canceled && NoCancel(event) ==> !r.control.canceled && !r.gate.Shut?)
            && (r.gate.Open? && AtPauseCheck(c, d, event).paused && !AtPauseCheck(c, d, event).resumeToken ==>
                  exists call :: Hears(call) in event.parked && (call.CallResume? || call.CallCancel?))
  {
    CallsKeepTokens(c, d, event.beforeCheck);
    var checked := AfterCalls(c, d, event.beforeCheck);
    if !checked.canceled {
      CallsKeepTokens(checked, d, event.beforePause);
      var atPause := AtPauseCheck(c, d, event);
      if atPause.paused {
        WaitingIsJust(atPause, d, event.parked);
      }
    }
  }

  function Min(a: nat, b: nat): nat {
    if a < b then a else b
  }

  function Sum(s: seq<nat>): nat {
    if s == [] then 0 else Sum(s[..|s| - 1]) + s[|s| - 1]
  }

  lemma SumAppend(s: seq<nat>, n: nat)
    ensures Sum(s + [n]) == Sum(s) + n
  {
    assert (s + [n])[..|s|] == s;
  }

  /** A piece and the first n bytes of the next one are consecutive. */
  lemma Consecutive(before: Bytes, s: Bytes, a: nat, b: nat, c: nat, n: nat)
    requires a <= b <= c <= |s| && n <= c - b
    ensures (before + s[a..b]) + s[b..c][..n] == before + s[a..b + n]
    ensures n == c - b ==> b + n == c
  {
    assert s[b..c][..n] == s[b..b + n];
    assert s[a..b] + s[b..b + n] == s[a..b + n];
  }

  /** These bytes of the source, from a on, have been accepted. */
  ghost predicate Accepted(source: Bytes, before: Bytes, after: Bytes, a: nat, n: nat) {
    a + n <= |source| && after == before + source[a..a + n]
  }

  lemma AcceptedMore(source: Bytes, before: Bytes, then': Bytes, after: Bytes, a: nat, m: nat, n: nat)
    requires Accepted(source, before, then', a, m) && Accepted(source, then', after, a + m, n)
    ensures Accepted(source, before, after, a, m + n)
  {
    assert source[a..a + m] + source[a + m..a + m + n] == source[a..a + (m + n)];
  }

  /** The read itself fails, or the limiter does while it waits for tokens. */
  predicate FailedRead(event: ReadEvent, throttled: bool, got: bool) {
    event.fault || (event.waitFault && throttled && got)
  }

  class ThrottledReader {
    const source: Bytes
    const burst: Option<nat>
    var pos: nat
    /** The token counts asked of the limiter. */
    var asked: seq<nat>
    /** How often Read was called, and whether it ever failed. */
    ghost var readCount: nat
    ghost var failed: bool

    /** Each request is within the burst, and every byte read was asked for exactly once. */
    ghost predicate Valid()
      reads this
    {
      && pos <= |source|
      && match burst
         case None => asked == []
         case Some(b) => 0 < b <= CHUNK && (forall n :: n in asked ==> 0 < n <= b) && Sum(asked) == pos
    }

    constructor (source: Bytes, bytesPerSec: int)
      ensures Valid() && this.source == source && pos == 0 && readCount == 0 && !failed
      ensures bytesPerSec <= 0 ==> burst == None
      ensures bytesPerSec > 0 ==> burst.Some? && burst.value <= bytesPerSec && burst.value <= CHUNK
                                  && (burst.value == bytesPerSec || burst.value == CHUNK)
    {
      this.source := source;
      pos, asked := 0, [];
      readCount, failed := 0, false;
      if bytesPerSec <= 0 {
        burst := None;
      } else {
        burst := Some(if bytesPerSec < CHUNK then bytesPerSec else CHUNK);
      }
    }

    method Read(length: nat, event: ReadEvent) returns (chunk: Bytes, err: ReadError)
      requires Valid()
      modifies this
      ensures Valid()
      ensures old(pos) <= pos && chunk == source[old(pos)..pos] && |chunk| <= length
      ensures err == EndOfFile ==> pos == |source|
      ensures err == Fault <==> FailedRead(event, burst.Some?, chunk != [])
      ensures readCount == old(readCount) + 1 && failed == (old(failed) || err == Fault)
      // As many bytes as there are, unless a bound is reached.
      ensures |chunk| <= event.available && (burst.Some? ==> |chunk| <= burst.value)
      ensures |chunk| == event.available || |chunk| == length || pos == |source|
              || (burst.Some? && |chunk| == burst.value)
      ensures !event.fault && old(pos) == |source| ==> err == EndOfFile
      ensures asked == old(asked) + if burst.Some? && chunk != [] then [|chunk|] else []
      // The limiter never turns a read that could deliver into an empty one.
      ensures length > 0 && event.available > 0 && old(pos) < |source| ==> chunk != []
    {
      var clipped := if burst.Some? then Min(length, burst.value) else length;
      var n := Min(Min(event.available, clipped), |source| - pos);
      chunk := source[pos..pos + n];
      pos := pos + n;
      err := if event.fault then Fault
             else if pos == |source| && (n == 0 || event.earlyEnd) then EndOfFile
             else NoError;
      if n > 0 && burst.Some? {
        SumAppend(asked, n);
        asked := asked + [n];
        if event.waitFault {
          err := Fault;
        }
      }
      readCount, failed := readCount + 1, failed || err == Fault;
    }
  }

  datatype WriteResult = Wrote | Failed | Refused | StillParked

  /** The progress writer in front of the connection, with its control fields. */
  class CountingWriter {
    const direction: Direction
    var control: Control
    var accepted: Bytes
    var sent: nat
    /** Whether the underlying writer ever failed. */
    ghost var failed: bool

    constructor (d: Direction)
      ensures direction == d && control == FRESH && accepted == [] && sent == 0 && !failed
    {
      direction := d;
      control, accepted, sent, failed := FRESH, [], 0, false;
    }

    method Hear(calls: seq<Call>)
      modifies this`control
      ensures control == AfterCalls(old(control), direction, calls)
    {
      for i := 0 to |calls|
        invariant AfterCalls(control, direction, calls[i..]) == AfterCalls(old(control), direction, calls)
      {
        assert calls[i..][0] == calls[i] && calls[i..][1..] == calls[i + 1..];
        control := Called(control, direction, calls[i]).control;
      }
    }

    /** The select of a paused write. */
    method Wait(parked: seq<Wake>) returns (gate: Gate)
      modifies this`control
      ensures Passage(gate, control) == Waited(old(control), direction, parked)
    {
      for i := 0 to |parked|
        invariant Waited(control, direction, parked[i..]) == Waited(old(control), direction, parked)
      {
        assert parked[i..][0] == parked[i] && parked[i..][1..] == parked[i + 1..];
        match parked[i] {
          case Hears(call) =>
            control := Called(control, direction, call).control;
          case Looks(preferCancel) =>
            if control.resumeToken && !(preferCancel && control.cancelToken) {
              control := control.(resumeToken := false);
              return Open;
            } else if control.cancelToken {
              control := control.(cancelToken := false);
              return Shut;
            }
        }
      }
      return Waiting;
    }

    method Write(p: Bytes, event: WriteEvent) returns (n: nat, result: WriteResult)
      requires TokenFits(control)
      modifies this
      ensures var passed := Passed(old(control), direction, event);
              && control == (if passed.gate.Open? then AfterCalls(passed.control, direction, event.beforeWrite)
                             else passed.control)
              && n == (if passed.gate.Open? then Min(event.takes, |p|) else 0)
              && result == (match passed.gate
                            case Open => if event.fault then Failed else Wrote
                            case Shut => Refused
                            case Waiting => StillParked)
      ensures accepted == old(accepted) + p[..n] && sent == old(sent) + n
      ensures failed == (old(failed) || result == Failed)
      ensures TokenFits(control) && (old(control).canceled ==> result == Refused)
      ensures result == Refused ==> control.canceled
      ensures result == StillParked ==> HasReasonToWait(control)
      ensures result == StillParked && LooksLast(event) ==> control.paused && !control.canceled
      ensures !old(control).canceled && NoCancel(event) ==> !control.canceled && result != Refused
    {
      PassageIsJust(control, direction, event);
      CallsKeepTokens(control, direction, event.beforeCheck);
      CallsKeepTokens(Passed(control, direction, event).control, direction, event.beforeWrite);
      Hear(event.beforeCheck);
      if control.canceled {
        return 0, Refused;
      }
      Hear(event.beforePause);
      if control.paused {
        var gate := Wait(event.parked);
        if gate.Shut? {
          return 0, Refused;
        }
        if gate.Waiting? {
          return 0, StillParked;
        }
      }
      Hear(event.beforeWrite);
      n := Min(event.takes, |p|);
      accepted := accepted + p[..n];
      if n > 0 {
        sent := sent + n;
      }
      failed := failed || event.fault;
      return n, if event.fault then Failed else Wrote;
    }
  }

  datatype Round = Round(read: ReadEvent, write: WriteEvent)

  datatype Ending = Running | Ended | ReadFailed | WriteFailed | ShortWrite | InPause

  /** Nothing fails, nobody cancels, no write is short, and some bytes are there to read. Anybody may
      pause and resume. */
  predicate Benign(r: Round) {
    && !r.read.fault && !r.read.waitFault && r.read.available > 0
    && NoCancel(r.write) && !r.write.fault && r.write.takes >= CHUNK
  }

  /** One turn of the copy loop: a read, and a write of what was read. */
  method CopyOnce(reader: ThrottledReader, writer: CountingWriter, round: Round) returns (ending: Ending, n: nat)
    requires reader.Valid() && TokenFits(writer.control)
    modifies reader, writer
    ensures reader.Valid() && TokenFits(writer.control) && old(reader.pos) + n <= reader.pos
    ensures Accepted(reader.source, old(writer.accepted), writer.accepted, old(reader.pos), n)
    ensures writer.sent == old(writer.sent) + n
    ensures old(writer.control).canceled ==> n == 0 && (ending == Running ==> writer.control.canceled)
    ensures ending == Running || ending == Ended || ending == ReadFailed ==> old(reader.pos) + n == reader.pos
    ensures ending == Ended ==> reader.pos == |reader.source|
    ensures ending == InPause ==> HasReasonToWait(writer.control)
    ensures ending == InPause && LooksLast(round.write) ==> writer.control.paused && !writer.control.canceled
    ensures reader.readCount == old(reader.readCount) + 1
    ensures ending == Running || ending == Ended ==>
              reader.failed == old(reader.failed) && writer.failed == old(writer.failed)
    ensures ending == ReadFailed ==> reader.failed && writer.failed == old(writer.failed)
    ensures ending == WriteFailed ==> writer.failed || writer.control.canceled
    ensures ending == ShortWrite ==> round.write.takes < CHUNK
    ensures Benign(round) && !old(writer.control).canceled ==>
              && !writer.control.canceled && (ending == Running || ending == Ended || ending == InPause)
              && (ending == Running ==> n > 0)
  {
    var chunk, err := reader.Read(CHUNK, round.read);
    n := 0;
    if |chunk| > 0 {
      var result;
      n, result := writer.Write(chunk, round.write);
      Consecutive([], reader.source, old(reader.pos), old(reader.pos), reader.pos, n);
      assert chunk[..n] == reader.source[old(reader.pos)..old(reader.pos) + n];
      match result {
        case Wrote =>
        case Failed => return WriteFailed, n;
        case Refused => return WriteFailed, n;
        case StillParked => return InPause, n;
      }
      if n != |chunk| {
        return ShortWrite, n;
      }
    }
    ending := if err == EndOfFile then Ended else if err == Fault then ReadFailed else Running;
  }

  /** The copy loop, for every schedule of reads, pauses, cancels, short writes and failures. */
  method Copy(reader: ThrottledReader, writer: CountingWriter, schedule: seq<Round>)
    returns (ending: Ending, written: nat)
    requires reader.Valid() && TokenFits(writer.control)
    modifies reader, writer
    ensures reader.Valid() && TokenFits(writer.control) && old(reader.pos) + written <= reader.pos <= |reader.source|
    ensures Accepted(reader.source, old(writer.accepted), writer.accepted, old(reader.pos), written)
    ensures writer.sent == old(writer.sent) + written
    ensures old(writer.control).canceled ==> written == 0
    ensures ending == Ended ==> old(reader.pos) + written == |reader.source|
    ensures ending == Running || ending == ReadFailed ==> old(reader.pos) + written == reader.pos
    // A copy that is still running has done all rounds; one that is running or has ended has had no
    // failing read or write in any of them.
    ensures old(reader.readCount) <= reader.readCount <= old(reader.readCount) + |schedule|
    ensures ending == Running ==> reader.readCount == old(reader.readCount) + |schedule|
    ensures ending == Running || ending == Ended ==>
              reader.failed == old(reader.failed) && writer.failed == old(writer.failed)
    ensures ending == ReadFailed ==> reader.failed && writer.failed == old(writer.failed)
    ensures ending == WriteFailed ==> writer.failed || writer.control.canceled
    // A copy that hangs does so in a pause, or has not yet looked at a token that wakes it.
    ensures ending == InPause ==> HasReasonToWait(writer.control)
    ensures ending == InPause && (forall r :: r in schedule ==> LooksLast(r.write)) ==>
              writer.control.paused && !writer.control.canceled
    // Neither throttle nor pauses can starve the copy: each benign round moves a byte or ends,
    // or waits for the end of a pause.
    ensures !old(writer.control).canceled && (forall r :: r in schedule ==> Benign(r)) ==>
              && !writer.control.canceled
              && (ending == Running || ending == Ended || ending == InPause)
              && (|schedule| > |reader.source| - old(reader.pos) ==> ending != Running)
  {
    ending, written := Running, 0;
    ghost var benign := !writer.control.canceled && forall r :: r in schedule ==> Benign(r);
    ghost var looks := forall r :: r in schedule ==> LooksLast(r.write);
    for i := 0 to |schedule|
      invariant ending == Running
      invariant reader.readCount == old(reader.readCount) + i
      invariant reader.failed == old(reader.failed) && writer.failed == old(writer.failed)
      invariant reader.Valid() && old(reader.pos) + written == reader.pos && TokenFits(writer.control)
      invariant Accepted(reader.source, old(writer.accepted), writer.accepted, old(reader.pos), written)
      invariant writer.sent == old(writer.sent) + written
      invariant old(writer.control).canceled ==> written == 0 && writer.control.canceled
      invariant benign ==> reader.pos >= old(reader.pos) + i && !writer.control.canceled
    {
      assert (benign ==> Benign(schedule[i])) && (looks ==> LooksLast(schedule[i].write));
      ghost var before := writer.accepted;
      var n;
      ending, n := CopyOnce(reader, writer, schedule[i]);
      AcceptedMore(reader.source, old(writer.accepted), before, writer.accepted, old(reader.pos), written, n);
      written := written + n;
      if ending != Running {
        return;
      }
    }
  }
}
