/** Write against concurrent pauses, resumes and cancels, one micro-step at a time. */
module WriteMachine {
  import opened ProgressWriter

  /** Where the copying goroutine is: between writes, past the cancelled check, parked in the
      select, or about to call the underlying writer. */
  datatype Pc = Idle | Checked | Parked | Writing

  datatype State = State(control: Control, pc: Pc, written: nat)

  /** The micro-steps of Write, and a control call made by anybody. */
  datatype Step =
    | CheckCanceled
    | CheckPaused
    | TakeResumeToken
    | TakeCancelToken
    | WriteChunk
    | Ctl(call: Call)

  const INIT := State(FRESH, Idle, 0)

  predicate Enabled(s: State, step: Step) {
    match step
    case CheckCanceled => s.pc.Idle?
    case CheckPaused => s.pc.Checked?
    case TakeResumeToken => s.pc.Parked? && s.control.resumeToken
    case TakeCancelToken => s.pc.Parked? && s.control.cancelToken
    case WriteChunk => s.pc.Writing?
    case Ctl(_) => true
  }

  /** A step that is not enabled changes nothing. A refused write ends where a new one starts. */
  function Do(d: Direction, s: State, step: Step): State {
    if !Enabled(s, step) then s
    else
      match step
      case CheckCanceled => s.(pc := if s.control.canceled then Idle else Checked)
      case CheckPaused => s.(pc := if s.control.paused then Parked else Writing)
      case TakeResumeToken => s.(control := s.control.(resumeToken := false), pc := Writing)
      case TakeCancelToken => s.(control := s.control.(cancelToken := false), pc := Idle)
      case WriteChunk => s.(pc := Idle, written := s.written + 1)
      case Ctl(call) => s.(control := Called(s.control, d, call).control)
  }

  function Run(d: Direction, s: State, steps: seq<Step>): State
    decreases |steps|
  {
    if steps == [] then s else Run(d, Do(d, s, steps[0]), steps[1..])
  }

  /** The condition holds after every prefix of the steps. */
  ghost predicate Throughout(d: Direction, s: State, steps: seq<Step>, p: State -> bool)
    decreases |steps|
  {
    p(s) && (steps != [] ==> Throughout(d, Do(d, s, steps[0]), steps[1..], p))
  }

  function One(b: bool): nat {
    if b then 1 else 0
  }

  /** Chunks that can still pass while the transfer stays paused: the one already past the checks,
      and the one a leftover resume token lets through. */
  function PausedBudget(s: State): nat {
    One(s.pc.Writing?) + One(s.control.resumeToken)
  }

  /** Chunks that can still pass after a cancel. */
  function CanceledBudget(s: State): nat {
    One(!s.pc.Idle?)
  }

  predicate InPause(s: State) {
    s.control.paused && !s.control.canceled
  }

  /** MAIN: as long as the transfer stays paused, written chunks and remaining budget never grow
      together. The budget is at most two. */
  lemma {:induction false} PausedOverrunIsBounded(d: Direction, s: State, steps: seq<Step>)
    requires Throughout(d, s, steps, InPause)
    ensures var now := Run(d, s, steps);
            now.written + PausedBudget(now) <= s.written + PausedBudget(s) <= s.written + 2
    decreases |steps|
  {
    if steps != [] {
      var next := Do(d, s, steps[0]);
      assert InPause(s) && InPause(next);
      PausedOverrunIsBounded(d, next, steps[1..]);
    }
  }

  /** MAIN: between a pause that takes effect and the next effective resume or cancel, at most two
      chunks reach the underlying writer. */
  lemma AtMostTwoChunksAfterPause(d: Direction, s: State, initiator: Party, steps: seq<Step>)
    requires !s.control.paused && !s.control.canceled
    requires Throughout(d, Do(d, s, Ctl(CallPause(initiator))), steps, InPause)
    ensures Run(d, s, [Ctl(CallPause(initiator))] + steps).written <= s.written + 2
  {
    var pause := Ctl(CallPause(initiator));
    PausedOverrunIsBounded(d, Do(d, s, pause), steps);
    assert ([pause] + steps)[1..] == steps;
  }

  /** What ends a pause: a call that passes the owner check of Resume, or a cancel. */
  lemma OnlyResumeOrCancelEndsPause(d: Direction, s: State, step: Step)
    requires InPause(s)
    ensures InPause(Do(d, s, step))
       <==> !(step == Ctl(CallCancel)
              || (step.Ctl? && step.call.CallResume? && Resumed(s.control, d, step.call.who).ok))
  {
  }

  /** The bound is reached: a stale token and a write past its check let two chunks through. */
  lemma TwoChunksCanPassAPause(d: Direction)
    ensures var before := Run(d, INIT, [Ctl(CallPause(Sender)), Ctl(CallResume(Sender)), CheckCanceled, CheckPaused]);
            var steps := [WriteChunk, CheckCanceled, CheckPaused, TakeResumeToken, WriteChunk];
            var paused := Do(d, before, Ctl(CallPause(Sender)));
            && !before.control.paused && before.written == 0
            && Throughout(d, paused, steps, InPause)
            && Run(d, paused, steps).written == 2
  {
    var before := Run(d, INIT, [Ctl(CallPause(Sender)), Ctl(CallResume(Sender)), CheckCanceled, CheckPaused]);
    assert before == State(FRESH.(resumeToken := true), Writing, 0) by {
      var s1 := Do(d, INIT, Ctl(CallPause(Sender)));
      var s2 := Do(d, s1, Ctl(CallResume(Sender)));
      var s3 := Do(d, s2, CheckCanceled);
      assert s3 == State(FRESH.(resumeToken := true), Checked, 0);
      RunFour(d, INIT, Ctl(CallPause(Sender)), Ctl(CallResume(Sender)), CheckCanceled, CheckPaused);
    }
    var s0 := Do(d, before, Ctl(CallPause(Sender)));
    var s1 := Do(d, s0, WriteChunk);
    var s2 := Do(d, s1, CheckCanceled);
    var s3 := Do(d, s2, CheckPaused);
    var s4 := Do(d, s3, TakeResumeToken);
    var s5 := Do(d, s4, WriteChunk);
    assert s5.written == 2 && InPause(s5);
    var steps := [WriteChunk, CheckCanceled, CheckPaused, TakeResumeToken, WriteChunk];
    assert steps[1..] == [CheckCanceled, CheckPaused, TakeResumeToken, WriteChunk];
    assert steps[1..][1..] == [CheckPaused, TakeResumeToken, WriteChunk];
    assert steps[1..][1..][1..] == [TakeResumeToken, WriteChunk];
    assert steps[1..][1..][1..][1..] == [WriteChunk];
    assert steps[1..][1..][1..][1..][1..] == [];
    assert Throughout(d, s4, [WriteChunk], InPause) && Run(d, s4, [WriteChunk]) == s5;
    assert Throughout(d, s3, [TakeResumeToken, WriteChunk], InPause) && Run(d, s3, [TakeResumeToken, WriteChunk]) == s5;
    assert Throughout(d, s2, steps[1..][1..], InPause) && Run(d, s2, steps[1..][1..]) == s5;
    assert Throughout(d, s1, steps[1..], InPause) && Run(d, s1, steps[1..]) == s5;
  }

  lemma RunFour(d: Direction, s: State, a: Step, b: Step, c: Step, e: Step)
    ensures Run(d, s, [a, b, c, e]) == Do(d, Do(d, Do(d, Do(d, s, a), b), c), e)
  {
    assert [a, b, c, e][1..] == [b, c, e] && [b, c, e][1..] == [c, e] && [c, e][1..] == [e] && [e][1..] == [];
    var s1 := Do(d, s, a);
    var s2 := Do(d, s1, b);
    assert Run(d, s, [a, b, c, e]) == Run(d, s1, [b, c, e]);
    assert Run(d, s1, [b, c, e]) == Run(d, s2, [c, e]);
    assert Run(d, s2, [c, e]) == Run(d, Do(d, s2, c), [e]);
    assert Run(d, Do(d, s2, c), [e]) == Run(d, Do(d, Do(d, s2, c), e), []);
  }

  /** MAIN: after a cancel at most one more chunk reaches the underlying writer, whatever happens. */
  lemma {:induction false} AtMostOneChunkAfterCancel(d: Direction, s: State, steps: seq<Step>)
    requires s.control.canceled
    ensures var now := Run(d, s, steps);
            && now.control.canceled
            && now.written + CanceledBudget(now) <= s.written + CanceledBudget(s) <= s.written + 1
    decreases |steps|
  {
    if steps != [] {
      AtMostOneChunkAfterCancel(d, Do(d, s, steps[0]), steps[1..]);
    }
  }

  /** A parked write that is no longer paused has a resume token waiting, and a cancelled one that
      passed its first check will find a cancel token. */
  predicate Wakeable(s: State) {
    && (s.pc.Parked? && !s.control.paused ==> s.control.resumeToken)
    && ((s.pc.Parked? || s.pc.Checked?) && s.control.canceled ==> s.control.cancelToken)
  }

  lemma {:induction false} EveryRunIsWakeable(d: Direction, s: State, steps: seq<Step>)
    requires Wakeable(s)
    ensures Wakeable(Run(d, s, steps))
    decreases |steps|
  {
    if steps != [] {
      EveryRunIsWakeable(d, Do(d, s, steps[0]), steps[1..]);
    }
  }

  /** MAIN: no lost wake-up. In every run, a write that can take no step is parked, the transfer
      is really paused and it is not cancelled. */
  lemma NoLostWakeUp(d: Direction, steps: seq<Step>)
    ensures var now := Run(d, INIT, steps);
            (forall step: Step :: !step.Ctl? ==> !Enabled(now, step)) ==>
              now.pc.Parked? && InPause(now)
  {
    EveryRunIsWakeable(d, INIT, steps);
    var now := Run(d, INIT, steps);
    if forall step: Step :: !step.Ctl? ==> !Enabled(now, step) {
      assert !Enabled(now, CheckCanceled) && !Enabled(now, CheckPaused) && !Enabled(now, WriteChunk);
      assert !Enabled(now, TakeResumeToken) && !Enabled(now, TakeCancelToken);
    }
  }

  /** And the owner's resume, or anybody's cancel, wakes it. */
  lemma StuckWriteIsWoken(d: Direction, steps: seq<Step>)
    requires Run(d, INIT, steps).pc.Parked?
    ensures var now := Run(d, INIT, steps);
            && Enabled(Do(d, now, Ctl(CallCancel)), TakeCancelToken)
            && (InPause(now) ==> Enabled(Do(d, now, Ctl(CallResume(now.control.pausedBy))), TakeResumeToken))
  {
    EveryRunIsWakeable(d, INIT, steps);
  }

  /** A write that takes the cancel token is over: it writes nothing, and no later one does. */
  lemma {:induction false} CancelTokenEndsWriting(d: Direction, s: State, steps: seq<Step>)
    requires s.pc.Parked? && s.control.canceled && s.control.cancelToken
    ensures Run(d, Do(d, s, TakeCancelToken), steps).written == s.written
  {
    IdleAfterCancelStaysIdle(d, Do(d, s, TakeCancelToken), steps);
  }

  lemma {:induction false} IdleAfterCancelStaysIdle(d: Direction, s: State, steps: seq<Step>)
    requires s.pc.Idle? && s.control.canceled
    ensures Run(d, s, steps).written == s.written && Run(d, s, steps).pc.Idle?
    decreases |steps|
  {
    if steps != [] {
      IdleAfterCancelStaysIdle(d, Do(d, s, steps[0]), steps[1..]);
    }
  }

  /** The bound after a cancel is reached: the cancel leaves both tokens, and a parked write that takes
      the resume token writes one chunk. */
  lemma OneChunkCanPassACancel(d: Direction, s: State)
    requires s.pc.Parked? && !s.control.canceled
    ensures var now := Do(d, s, Ctl(CallCancel));
            && now.control.canceled && Enabled(now, TakeResumeToken) && Enabled(now, TakeCancelToken)
            && Do(d, Do(d, now, TakeResumeToken), WriteChunk).written == s.written + 1
  {
  }
}
