/** Pause, resume and cancel of one transfer: the control fields of a progress writer. */
module ProgressWriter {
  /** The strings "", "sender" and "receiver" that name a side, and any other string a peer sends. */
  datatype Party = Nobody | Sender | Receiver | Stranger(name: string)

  datatype Direction = Push | Pull

  /** What one side tells the other. */
  datatype Signal = PauseSignal(initiator: Party) | ResumeSignal(initiator: Party) | CancelSignal

  /** Two channels of capacity one are two booleans: whether they hold a token. */
  datatype Control = Control(paused: bool, canceled: bool, pausedBy: Party, resumeToken: bool, cancelToken: bool)

  const FRESH := Control(false, false, Nobody, false, false)

  /** The outcome of a call: the new fields, the signals sent, and whether it was accepted. */
  datatype Outcome = Outcome(control: Control, signals: seq<Signal>, ok: bool)

  predicate IsLocalInitiator(d: Direction, initiator: Party) {
    (d == Push && initiator == Sender) || (d == Pull && initiator == Receiver)
  }

  function Paused(c: Control, d: Direction, initiator: Party): Outcome {
    if c.paused || c.canceled then Outcome(c, [], true)
    else Outcome(c.(paused := true, pausedBy := initiator),
                 if IsLocalInitiator(d, initiator) then [PauseSignal(initiator)] else [],
                 true)
  }

  function Resumed(c: Control, d: Direction, requester: Party): Outcome {
    if c.canceled || (c.pausedBy != Nobody && c.pausedBy != requester) then Outcome(c, [], false)
    else Outcome(c.(pausedBy := Nobody, paused := false, resumeToken := c.resumeToken || c.paused),
                 if IsLocalInitiator(d, c.pausedBy) then [ResumeSignal(requester)] else [],
                 true)
  }

  function Canceled(c: Control): Outcome {
    if c.canceled then Outcome(c, [], true)
    else Outcome(c.(canceled := true, cancelToken := true, resumeToken := true), [CancelSignal], true)
  }

  /** The object whose methods these are. Signals go to the peer in the order they are listed. */
  class Writer {
    const direction: Direction
    var paused: bool
    var canceled: bool
    var pausedBy: Party
    var resumeCh: bool
    var cancelCh: bool
    var signals: seq<Signal>

    function State(): Control
      reads this
    {
      Control(paused, canceled, pausedBy, resumeCh, cancelCh)
    }

    constructor (d: Direction)
      ensures direction == d && State() == FRESH && signals == []
    {
      direction := d;
      paused, canceled, pausedBy, resumeCh, cancelCh := false, false, Nobody, false, false;
      signals := [];
    }

    method SignalPeer(s: Signal)
      modifies this`signals
      ensures signals == old(signals) + [s]
    {
      signals := signals + [s];
    }

    method Pause(initiator: Party)
      modifies this
      ensures var o := Paused(old(State()), direction, initiator);
              State() == o.control && signals == old(signals) + o.signals
    {
      if paused || canceled {
        return;
      }
      paused := true;
      pausedBy := initiator;
      if IsLocalInitiator(direction, initiator) {
        SignalPeer(PauseSignal(initiator));
      }
    }

    method Resume(requester: Party) returns (ok: bool)
      modifies this
      ensures Outcome(State(), signals, ok)
           == var o := Resumed(old(State()), direction, requester); o.(signals := old(signals) + o.signals)
    {
      if canceled {
        return false;
      }
      if pausedBy != Nobody && pausedBy != requester {
        return false;
      }
      var prevPausedBy := pausedBy;
      pausedBy := Nobody;
      if paused {
        paused := false;
        resumeCh := true;
      }
      if IsLocalInitiator(direction, prevPausedBy) {
        SignalPeer(ResumeSignal(requester));
      }
      return true;
    }

    method Cancel()
      modifies this
      ensures var o := Canceled(old(State()));
              State() == o.control && signals == old(signals) + o.signals
    {
      if canceled {
        return;
      }
      canceled := true;
      SignalPeer(CancelSignal);
      cancelCh := true;
      resumeCh := true;
    }

    /** The peer paused: only the owner shown is changed. */
    method NotifyPausedBy(initiator: Party)
      modifies this`pausedBy
      ensures pausedBy == initiator
    {
      pausedBy := initiator;
    }

    method NotifyResumed()
      modifies this`pausedBy
      ensures pausedBy == Nobody
    {
      pausedBy := Nobody;
    }
  }

  /** The calls a side can make or receive. */
  datatype Call =
    | CallPause(who: Party)
    | CallResume(who: Party)
    | CallCancel
    | CallNotifyPausedBy(who: Party)
    | CallNotifyResumed

  function Called(c: Control, d: Direction, call: Call): Outcome {
    match call
    case CallPause(who) => Paused(c, d, who)
    case CallResume(who) => Resumed(c, d, who)
    case CallCancel => Canceled(c)
    case CallNotifyPausedBy(who) => Outcome(c.(pausedBy := who), [], true)
    case CallNotifyResumed => Outcome(c.(pausedBy := Nobody), [], true)
  }

  function AfterCalls(c: Control, d: Direction, calls: seq<Call>): Control
    decreases |calls|
  {
    if calls == [] then c else AfterCalls(Called(c, d, calls[0]).control, d, calls[1..])
  }

  /** Calls that reach the sending side: nobody notifies it, and pauses carry an owner. */
  predicate IsSendingCall(call: Call) {
    !call.CallNotifyPausedBy? && !call.CallNotifyResumed? && (call.CallPause? ==> call.who != Nobody)
  }

  /** MAIN: on the sending side, being paused and being owned by somebody are the same thing. */
  lemma {:induction false} PausedIffOwned(c: Control, d: Direction, calls: seq<Call>)
    requires c.paused <==> c.pausedBy != Nobody
    requires forall call :: call in calls ==> IsSendingCall(call)
    ensures var now := AfterCalls(c, d, calls); now.paused <==> now.pausedBy != Nobody
    decreases |calls|
  {
    if calls != [] {
      assert IsSendingCall(calls[0]);
      PausedIffOwned(Called(c, d, calls[0]).control, d, calls[1..]);
    }
  }

  /** A resume by this owner comes before any cancel. */
  predicate ReleasedBy(calls: seq<Call>, owner: Party) {
    calls != [] && !calls[0].CallCancel?
    && (calls[0] == CallResume(owner) || ReleasedBy(calls[1..], owner))
  }

  /** MAIN: a pause stays in force, with its owner, through any calls of either side, until the
      owner resumes; once cancelled even the owner cannot. Some prefix of the calls ends the pause
      if and only if the owner resumes before any cancel. */
  lemma {:induction false} PauseHeldUntilOwnerResumes(c: Control, d: Direction, calls: seq<Call>)
    requires c.paused && !c.canceled && c.pausedBy != Nobody
    requires forall call :: call in calls ==> IsSendingCall(call)
    ensures ReleasedBy(calls, c.pausedBy)
       <==> exists n :: 0 <= n <= |calls| && Freed(AfterCalls(c, d, calls[..n]), c.pausedBy)
    decreases |calls|
  {
    if calls == [] {
      assert calls[..0] == [];
    } else {
      var next := Called(c, d, calls[0]).control;
      assert IsSendingCall(calls[0]);
      forall n | 1 <= n <= |calls| ensures AfterCalls(c, d, calls[..n]) == AfterCalls(next, d, calls[1..][..n - 1]) {
        assert calls[..n][1..] == calls[1..][..n - 1] && calls[..n][0] == calls[0];
      }
      assert calls[..0] == [];
      if calls[0].CallCancel? {
        forall n | 0 <= n < |calls| ensures !Freed(AfterCalls(next, d, calls[1..][..n]), c.pausedBy) {
          CancelFreezesOwner(next, d, calls[1..][..n]);
        }
      } else if calls[0] == CallResume(c.pausedBy) {
        assert calls[..1][1..] == [] && calls[..1][0] == calls[0];
        assert Freed(AfterCalls(c, d, calls[..1]), c.pausedBy);
      } else {
        assert next == c;
        PauseHeldUntilOwnerResumes(c, d, calls[1..]);
        if ReleasedBy(calls, c.pausedBy) {
          var n :| 0 <= n <= |calls[1..]| && Freed(AfterCalls(c, d, calls[1..][..n]), c.pausedBy);
          assert Freed(AfterCalls(c, d, calls[..n + 1]), c.pausedBy);
        }
      }
    }
  }

  predicate Freed(c: Control, owner: Party) {
    !c.paused || c.pausedBy != owner
  }

  /** Cancelling is final, and freezes the pause fields. */
  lemma {:induction false} CancelFreezesOwner(c: Control, d: Direction, calls: seq<Call>)
    requires c.canceled
    requires forall call :: call in calls ==> IsSendingCall(call)
    ensures AfterCalls(c, d, calls) == c
    decreases |calls|
  {
    if calls != [] {
      assert IsSendingCall(calls[0]);
      CancelFreezesOwner(c, d, calls[1..]);
    }
  }

  lemma {:induction false} CanceledIffCancelCalled(c: Control, d: Direction, calls: seq<Call>)
    ensures AfterCalls(c, d, calls).canceled <==> c.canceled || CallCancel in calls
    decreases |calls|
  {
    if calls != [] {
      CanceledIffCancelCalled(Called(c, d, calls[0]).control, d, calls[1..]);
      assert calls == [calls[0]] + calls[1..];
    }
  }

  /** MAIN: after any calls, on either side, a resume is accepted if and only if nobody cancelled and
      the owner then is nobody or the one who asks. A refused one changes and sends nothing, an
      accepted one leaves the transfer running and unowned. */
  lemma ResumeAcceptedIff(d: Direction, calls: seq<Call>, who: Party)
    ensures var c := AfterCalls(FRESH, d, calls);
            var o := Called(c, d, CallResume(who));
            && (o.ok <==> CallCancel !in calls && (c.pausedBy == Nobody || c.pausedBy == who))
            && (if o.ok then !o.control.paused && o.control.pausedBy == Nobody && !o.control.canceled
                else o.control == c && o.signals == [])
  {
    CanceledIffCancelCalled(FRESH, d, calls);
  }

  /** A status notification is not a pause: on the receiving side the equivalence fails. */
  lemma NotifiedIsNotPaused(who: Party)
    requires who != Nobody
    ensures var c := AfterCalls(FRESH, Pull, [CallNotifyPausedBy(who)]); !c.paused && c.pausedBy == who
  {
    assert [CallNotifyPausedBy(who)][1..] == [];
  }
}
