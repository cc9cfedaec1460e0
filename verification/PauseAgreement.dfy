/** When the two ends of a transfer agree, after all messages are delivered, on who paused it. */
module PauseAgreement {
  import opened Wrappers
  import opened ProgressWriter
  import opened ControlProtocol

  lemma {:induction false} RunAppend(s: State, before: seq<Step>, after: seq<Step>)
    ensures Run(s, before + after) == Run(Run(s, before), after)
  {
    if after == [] {
      assert before + after == before;
    } else {
      var k := |after| - 1;
      RunAppend(s, before, after[..k]);
      assert (before + after)[..|before + after| - 1] == before + after[..k];
    }
  }

  lemma RunFirst(s: State, step: Step, after: seq<Step>)
    ensures Run(s, [step] + after) == Run(Do(s, step), after)
  {
    RunAppend(s, [step], after);
    assert [step][..0] == [];
    assert Run(s, [step]) == Do(s, step);
  }

  //
  // Only the sender's user pauses.
  //

  /** The messages a step puts on connections to the receiver. */
  function Emitted(s: State, step: Step): seq<Signal> {
    match step
    case SenderAsks(action) => Called(s.sender, Push, CallOf(action, Sender)).signals
    case ReadBack => if s.back == [] then [] else OnByte(s.sender, s.back[0]).signals
    case _ => []
  }

  function SentAfter(s: State, step: Step, sent: Option<Signal>): Option<Signal> {
    var e := Emitted(s, step);
    if e == [] then sent else Some(e[|e| - 1])
  }

  function AcceptedAfter(s: State, step: Step, accepted: Option<Signal>): Option<Signal> {
    if step.Accept? && Enabled(s, step) then Some(step.message) else accepted
  }

  /** The last message the sender sent, and the last one the receiver accepted. */
  function LastSent(steps: seq<Step>): Option<Signal> {
    if steps == [] then None
    else
      var k := |steps| - 1;
      SentAfter(Run(INIT, steps[..k]), steps[k], LastSent(steps[..k]))
  }

  function LastAccepted(steps: seq<Step>): Option<Signal> {
    if steps == [] then None
    else
      var k := |steps| - 1;
      AcceptedAfter(Run(INIT, steps[..k]), steps[k], LastAccepted(steps[..k]))
  }

  /** The owner somebody sees who has this message last. */
  function Shown(m: Option<Signal>): Party {
    if m.Some? && m.value.PauseSignal? then Sender else Nobody
  }

  function OwnerAfter(m: Signal): Party {
    Shown(Some(m))
  }

  predicate IsOwn(m: Signal) {
    m == PauseSignal(Sender) || m == ResumeSignal(Sender)
  }

  ghost predicate SenderInv(s: State, sent: Option<Signal>, accepted: Option<Signal>) {
    && Uncancelled(s) && s.back == [] && !s.receiver.paused
    && (forall m :: m in s.forward ==> IsOwn(m))
    && (sent.Some? ==> IsOwn(sent.value)) && (accepted.Some? ==> IsOwn(accepted.value))
    && s.sender.pausedBy == Shown(sent) && (s.sender.paused <==> s.sender.pausedBy == Sender)
    && s.receiver.pausedBy == Shown(accepted)
    && (sent.None? ==> s.forward == multiset{} && accepted.None?)
    && (accepted.None? && s.forward == multiset{} ==> sent.None?)
  }

  lemma SenderPauses(s: State)
    requires !s.sender.paused && !s.sender.canceled
    ensures Emitted(s, SenderAsks(AskPause)) == [PauseSignal(Sender)]
    ensures Do(s, SenderAsks(AskPause))
         == s.(sender := s.sender.(paused := true, pausedBy := Sender),
               forward := s.forward + multiset{PauseSignal(Sender)})
  {
  }

  lemma SenderResumes(s: State)
    requires s.sender.paused && s.sender.pausedBy == Sender && !s.sender.canceled
    ensures Emitted(s, SenderAsks(AskResume)) == [ResumeSignal(Sender)]
    ensures Do(s, SenderAsks(AskResume))
         == s.(sender := s.sender.(paused := false, pausedBy := Nobody, resumeToken := true),
               forward := s.forward + multiset{ResumeSignal(Sender)})
  {
  }

  lemma SenderIdles(s: State, action: Action)
    requires (action == AskPause && s.sender.paused) || (action == AskResume && s.sender.pausedBy != Sender)
    requires s.sender.paused <==> s.sender.pausedBy != Nobody
    ensures Emitted(s, SenderAsks(action)) == [] && Do(s, SenderAsks(action)) == s
  {
    var o := Called(s.sender, Push, CallOf(action, Sender));
    assert o.signals == [] && o.control == s.sender;
  }

  lemma SendingKeepsInv(s: State, c: Control, m: Signal, sent: Option<Signal>, accepted: Option<Signal>)
    requires SenderInv(s, sent, accepted) && IsOwn(m) && !c.canceled
    requires c.pausedBy == OwnerAfter(m) && (c.paused <==> c.pausedBy == Sender)
    ensures SenderInv(s.(sender := c, forward := s.forward + multiset{m}), Some(m), accepted)
  {
    assert m in s.forward + multiset{m};
  }

  lemma SenderStepKeepsInv(s: State, step: Step, sent: Option<Signal>, accepted: Option<Signal>)
    requires SenderInv(s, sent, accepted) && step.SenderAsks? && step.action != AskCancel
    ensures SenderInv(Do(s, step), SentAfter(s, step, sent), AcceptedAfter(s, step, accepted))
  {
    if step.action == AskPause && !s.sender.paused {
      SenderPauses(s);
      SendingKeepsInv(s, Do(s, step).sender, PauseSignal(Sender), sent, accepted);
    } else if step.action == AskResume && s.sender.pausedBy == Sender {
      SenderResumes(s);
      SendingKeepsInv(s, Do(s, step).sender, ResumeSignal(Sender), sent, accepted);
    } else {
      SenderIdles(s, step.action);
    }
  }

  lemma ReceiverResumeKeepsInv(s: State, step: Step, sent: Option<Signal>, accepted: Option<Signal>)
    requires SenderInv(s, sent, accepted) && step == ReceiverAsks(AskResume)
    ensures SenderInv(Do(s, step), SentAfter(s, step, sent), AcceptedAfter(s, step, accepted))
  {
    assert Resumed(s.receiver, Pull, Receiver).control == s.receiver;
    assert Do(s, step) == s;
  }

  lemma AcceptKeepsInv(s: State, step: Step, sent: Option<Signal>, accepted: Option<Signal>)
    requires SenderInv(s, sent, accepted) && step.Accept? && step.message in s.forward
    ensures SenderInv(Do(s, step), SentAfter(s, step, sent), AcceptedAfter(s, step, accepted))
  {
    var m := step.message;
    assert IsOwn(m);
    assert OnMessage(s.receiver, m) == Outcome(s.receiver.(pausedBy := OwnerAfter(m)), [], true);
    assert Do(s, step) == s.(receiver := s.receiver.(pausedBy := OwnerAfter(m)), forward := s.forward - multiset{m});
  }

  lemma IdleStepKeepsInv(s: State, step: Step, sent: Option<Signal>, accepted: Option<Signal>)
    requires SenderInv(s, sent, accepted) && (step.ReadBack? || (step.Accept? && step.message !in s.forward))
    ensures SenderInv(Do(s, step), SentAfter(s, step, sent), AcceptedAfter(s, step, accepted))
  {
    assert Do(s, step) == s;
  }

  lemma CancelCancels(s: State)
    ensures !Uncancelled(Do(s, SenderAsks(AskCancel)))
    ensures !Uncancelled(Do(s, ReceiverAsks(AskCancel)))
  {
    assert Canceled(s.sender).control.canceled && Canceled(s.receiver).control.canceled;
  }

  lemma StepKeepsSenderInv(s: State, step: Step, sent: Option<Signal>, accepted: Option<Signal>)
    requires SenderInv(s, sent, accepted) && step != ReceiverAsks(AskPause)
    requires step != SenderAsks(AskCancel) && step != ReceiverAsks(AskCancel)
    ensures SenderInv(Do(s, step), SentAfter(s, step, sent), AcceptedAfter(s, step, accepted))
  {
    if step.SenderAsks? {
      SenderStepKeepsInv(s, step, sent, accepted);
    } else if step.ReceiverAsks? {
      assert step.action == AskResume;
      ReceiverResumeKeepsInv(s, step, sent, accepted);
    } else if Enabled(s, step) {
      AcceptKeepsInv(s, step, sent, accepted);
    } else {
      IdleStepKeepsInv(s, step, sent, accepted);
    }
  }

  lemma {:induction false} EveryRunHasSenderInv(steps: seq<Step>)
    requires ReceiverAsks(AskPause) !in steps
    requires Uncancelled(Run(INIT, steps))
    ensures SenderInv(Run(INIT, steps), LastSent(steps), LastAccepted(steps))
  {
    if steps != [] {
      var k := |steps| - 1;
      var s := Run(INIT, steps[..k]);
      assert forall x :: x in steps[..k] ==> x in steps;
      StepNeverUncancels(s, steps[k]);
      EveryRunHasSenderInv(steps[..k]);
      CancelCancels(s);
      StepKeepsSenderInv(s, steps[k], LastSent(steps[..k]), LastAccepted(steps[..k]));
    }
  }

  /** MAIN: while the receiver's user does not pause, up to the first cancel, each side shows the
      pause of the message it handled last; messages overtake each other, so when all are accepted
      the two sides show the same owner if and only if the last one accepted equals the last one
      sent. */
  lemma SenderPausesAreShown(steps: seq<Step>)
    requires ReceiverAsks(AskPause) !in steps
    requires Uncancelled(Run(INIT, steps))
    ensures var now := Run(INIT, steps);
            && now.back == [] && !now.receiver.paused
            && now.sender.pausedBy == Shown(LastSent(steps)) && (now.sender.paused <==> now.sender.pausedBy == Sender)
            && now.receiver.pausedBy == Shown(LastAccepted(steps))
            && (now.forward == multiset{} ==>
                  (now.sender.pausedBy == now.receiver.pausedBy <==> LastAccepted(steps) == LastSent(steps)))
  {
    EveryRunHasSenderInv(steps);
  }

  //
  // Both users pause.
  //

  /** Both sides know the same owner, and the receiver is paused exactly if it owns the pause. */
  predicate Agreed(s: State) {
    && s.sender.pausedBy == s.receiver.pausedBy
    && (s.receiver.paused <==> s.receiver.pausedBy == Receiver)
  }

  predicate Quiet(s: State) {
    s.back == [] && s.forward == multiset{}
  }

  predicate OnlyDeliveries(ds: seq<Step>) {
    forall n :: 0 <= n < |ds| ==> IsDelivery(ds[n])
  }

  /** However the messages in flight are delivered, the two sides agree in the end. */
  ghost predicate Settles(s: State) {
    forall ds :: OnlyDeliveries(ds) && Quiet(Run(s, ds)) ==> Agreed(Run(s, ds))
  }

  /** A pause while the other side has one or a message to the receiver is in flight, or a
      sender's resume while one is in flight. */
  predicate Overlaps(s: State, step: Step) {
    match step
    case SenderAsks(AskPause) => !s.sender.paused && (s.receiver.paused || s.forward != multiset{})
    case SenderAsks(AskResume) => s.sender.pausedBy == Sender && s.forward != multiset{}
    case ReceiverAsks(AskPause) => !s.receiver.paused && (s.sender.pausedBy == Sender || s.forward != multiset{})
    case _ => false
  }

  predicate KnownOwner(p: Party) {
    p == Nobody || p == Sender || p == Receiver
  }

  /** What every run keeps until the first cancel. */
  ghost predicate Shape(s: State) {
    && Uncancelled(s) && PausesOnly(s.back)
    && (forall m :: m in s.forward ==> IsOwn(m))
    && KnownOwner(s.sender.pausedBy) && KnownOwner(s.receiver.pausedBy)
    && (s.sender.paused <==> s.sender.pausedBy != Nobody)
    && (s.receiver.pausedBy == Receiver ==> s.receiver.paused)
  }

  lemma SenderKeepsShape(s: State, action: Action)
    requires Shape(s) && action != AskCancel
    ensures Shape(Do(s, SenderAsks(action)))
  {
    var o := Called(s.sender, Push, CallOf(action, Sender));
    assert o.signals == [] || o.signals == [PauseSignal(Sender)] || o.signals == [ResumeSignal(Sender)];
  }

  lemma ReceiverKeepsShape(s: State, action: Action)
    requires Shape(s) && action != AskCancel
    ensures Shape(Do(s, ReceiverAsks(action)))
  {
    var o := Called(s.receiver, Pull, CallOf(action, Receiver));
    assert o.signals == [] || o.signals == [PauseSignal(Receiver)] || o.signals == [ResumeSignal(Receiver)];
    var bytes := ControlProtocol.Bytes(o.signals);
    assert forall i :: 0 <= i < |bytes| ==> bytes[i] == 'P' || bytes[i] == 'R';
  }

  lemma ReadingKeepsShape(s: State)
    requires Shape(s) && s.back != []
    ensures Shape(Do(s, ReadBack))
    ensures Do(s, ReadBack) == s.(sender := OnByte(s.sender, s.back[0]).control, back := s.back[1..])
  {
    assert OnByte(s.sender, s.back[0]).signals == [];
    assert forall i :: 0 <= i < |s.back[1..]| ==> s.back[1..][i] == s.back[i + 1];
  }

  lemma AcceptingKeepsShape(s: State, m: Signal)
    requires Shape(s) && m in s.forward
    ensures Do(s, Accept(m))
         == s.(receiver := s.receiver.(pausedBy := OwnerAfter(m)), forward := s.forward - multiset{m})
    ensures Shape(Do(s, Accept(m)))
  {
    assert IsOwn(m);
    assert OnMessage(s.receiver, m).signals == [] && s.back + [] == s.back;
  }

  lemma StepKeepsShape(s: State, step: Step)
    requires Shape(s)
    requires step != SenderAsks(AskCancel) && step != ReceiverAsks(AskCancel)
    ensures Shape(Do(s, step))
  {
    match step {
      case SenderAsks(action) => SenderKeepsShape(s, action);
      case ReceiverAsks(action) => ReceiverKeepsShape(s, action);
      case ReadBack => if s.back != [] { ReadingKeepsShape(s); }
      case Accept(m) => if m in s.forward { AcceptingKeepsShape(s, m); }
    }
  }

  predicate Good(seen: Party, paused: bool, owner: Party) {
    seen == owner && (paused <==> owner == Receiver)
  }

  ghost predicate Bound(seen: Party, forward: multiset<Signal>, paused: bool, owner: Party) {
    if forward == multiset{} then Good(seen, paused, owner)
    else forall m :: m in forward ==> Good(seen, paused, OwnerAfter(m))
  }

  /** Settling, without looking at deliveries: any message in flight may be the last accepted. */
  ghost predicate WillAgree(s: State) {
    Bound(Replay(s.sender, s.back).pausedBy, s.forward, s.receiver.paused, s.receiver.pausedBy)
  }

  lemma DeliveryKeepsAgreement(s: State, step: Step)
    requires Shape(s) && IsDelivery(step)
    ensures Shape(Do(s, step)) && (WillAgree(s) ==> WillAgree(Do(s, step)))
  {
    match step {
      case ReadBack =>
        if s.back != [] {
          ReadingKeepsShape(s);
          ReplayHead(s.sender, s.back);
        }
      case Accept(m) => if m in s.forward { AcceptingKeepsShape(s, m); }
    }
  }

  lemma {:induction false} DeliveriesKeepAgreement(s: State, ds: seq<Step>)
    requires Shape(s) && WillAgree(s) && OnlyDeliveries(ds)
    ensures Shape(Run(s, ds)) && WillAgree(Run(s, ds))
  {
    if ds != [] {
      var k := |ds| - 1;
      DeliveriesKeepAgreement(s, ds[..k]);
      DeliveryKeepsAgreement(Run(s, ds[..k]), ds[k]);
    }
  }

  /** Reading everything the receiver has sent. */
  lemma {:induction false} ReadAll(s: State) returns (ds: seq<Step>)
    requires Shape(s)
    ensures OnlyDeliveries(ds) && Run(s, ds) == s.(sender := Replay(s.sender, s.back), back := [])
    ensures Shape(Run(s, ds))
    decreases |s.back|
  {
    if s.back == [] {
      ds := [];
    } else {
      ReadingKeepsShape(s);
      ReplayHead(s.sender, s.back);
      var rest := ReadAll(Do(s, ReadBack));
      RunFirst(s, ReadBack, rest);
      ds := [ReadBack] + rest;
    }
  }

  /** Accepting everything the sender has sent, this message last. */
  lemma {:induction false} AcceptAllThen(s: State, m: Signal) returns (ds: seq<Step>)
    requires Shape(s) && m in s.forward
    ensures OnlyDeliveries(ds)
    ensures Run(s, ds) == s.(receiver := s.receiver.(pausedBy := OwnerAfter(m)), forward := multiset{})
    decreases |s.forward|
  {
    if s.forward == multiset{m} {
      AcceptingKeepsShape(s, m);
      ds := [Accept(m)];
      RunFirst(s, Accept(m), []);
      assert ds + [] == ds;
    } else {
      var other := AnotherMessage(s.forward, m);
      AcceptingKeepsShape(s, other);
      var next := s.(receiver := s.receiver.(pausedBy := OwnerAfter(other)), forward := s.forward - multiset{other});
      var rest := AcceptAllThen(next, m);
      RunFirst(s, Accept(other), rest);
      ds := [Accept(other)] + rest;
    }
  }

  lemma AnotherMessage(forward: multiset<Signal>, m: Signal) returns (other: Signal)
    requires m in forward && forward != multiset{m}
    ensures other in forward && m in forward - multiset{other}
    ensures |forward - multiset{other}| < |forward|
  {
    assert forward == multiset{m} + (forward - multiset{m});
    assert forward - multiset{m} != multiset{};
    other :| other in forward - multiset{m};
    assert forward == multiset{other} + (forward - multiset{other});
  }

  /** All that is in flight can be delivered; if the sides need not agree, so that they do not. */
  lemma Drain(s: State) returns (ds: seq<Step>)
    requires Shape(s)
    ensures OnlyDeliveries(ds) && Quiet(Run(s, ds))
    ensures !WillAgree(s) ==> !Agreed(Run(s, ds))
  {
    var readBacks := ReadAll(s);
    var then' := Run(s, readBacks);
    if s.forward == multiset{} {
      ds := readBacks;
    } else {
      var m :| m in s.forward && (!WillAgree(s) ==> !Good(then'.sender.pausedBy, s.receiver.paused, OwnerAfter(m)));
      var accepts := AcceptAllThen(then', m);
      RunAppend(s, readBacks, accepts);
      ds := readBacks + accepts;
    }
  }

  /** The closed form is exact. */
  lemma WillAgreeIffSettles(s: State)
    requires Shape(s)
    ensures WillAgree(s) <==> Settles(s)
  {
    if WillAgree(s) {
      forall ds | OnlyDeliveries(ds) && Quiet(Run(s, ds)) ensures Agreed(Run(s, ds)) {
        DeliveriesKeepAgreement(s, ds);
      }
    } else {
      var ds := Drain(s);
    }
  }

  /** The last byte in flight tells whether the receiver is paused. */
  predicate BackEnds(s: State) {
    s.back != [] ==> (s.back[|s.back| - 1] == 'P' <==> s.receiver.paused)
  }

  /** The owner a sender has after reading: a pause of its own stays, else the last byte decides. */
  function SeenAfter(owner: Party, back: seq<char>): Party {
    if owner == Sender || back == [] then owner
    else if back[|back| - 1] == 'P' then Receiver
    else Nobody
  }

  lemma {:induction false} ReplayEnds(c: Control, back: seq<char>)
    requires !c.canceled && PausesOnly(back) && KnownOwner(c.pausedBy) && (c.paused <==> c.pausedBy != Nobody)
    ensures var now := Replay(c, back);
            && !now.canceled && (now.paused <==> now.pausedBy != Nobody)
            && now.pausedBy == SeenAfter(c.pausedBy, back)
  {
    if back != [] {
      ReplayEnds(c, back[..|back| - 1]);
    }
  }

  /** A message that changes what the sender sees is safe only if it travels alone. */
  lemma MessageTravelsAlone(seen: Party, seen': Party, forward: multiset<Signal>, m: Signal, paused: bool, owner: Party)
    requires Bound(seen, forward, paused, owner) && seen != seen'
    ensures Bound(seen', forward + multiset{m}, paused, owner)
       <==> forward == multiset{} && Good(seen', paused, OwnerAfter(m))
  {
    assert m in forward + multiset{m};
    if forward != multiset{} {
      var x :| x in forward;
      assert x in forward + multiset{m};
      assert Good(seen, paused, OwnerAfter(x)) && !Good(seen', paused, OwnerAfter(x));
    }
  }

  /** A change of the receiver's own pause is safe only if no message travels. */
  lemma ReceiverChangesAlone(seen: Party, seen': Party, forward: multiset<Signal>,
                             paused: bool, owner: Party, owner': Party)
    requires Bound(seen, forward, paused, owner)
    ensures Bound(seen', forward, !paused, owner') <==> forward == multiset{} && Good(seen', !paused, owner')
  {
    if forward != multiset{} {
      var x :| x in forward;
      assert Good(seen, paused, OwnerAfter(x)) && !Good(seen', !paused, OwnerAfter(x));
    }
  }

  lemma SenderPauseAgrees(s: State)
    requires Shape(s) && WillAgree(s) && !s.sender.paused
    ensures var next := Do(s, SenderAsks(AskPause));
            && next.back == s.back && next.receiver == s.receiver
            && (WillAgree(next) <==> !Overlaps(s, SenderAsks(AskPause)))
  {
    var next := Do(s, SenderAsks(AskPause));
    assert next.forward == s.forward + multiset{PauseSignal(Sender)};
    ReplayEnds(s.sender, s.back);
    ReplayEnds(next.sender, s.back);
    MessageTravelsAlone(SeenAfter(Nobody, s.back), Sender, s.forward, PauseSignal(Sender),
                        s.receiver.paused, s.receiver.pausedBy);
  }

  lemma SenderResumeAgrees(s: State)
    requires Shape(s) && WillAgree(s) && BackEnds(s) && s.sender.pausedBy == Sender
    ensures var next := Do(s, SenderAsks(AskResume));
            && next.back == s.back && next.receiver == s.receiver
            && (WillAgree(next) <==> !Overlaps(s, SenderAsks(AskResume)))
  {
    var next := Do(s, SenderAsks(AskResume));
    assert next.forward == s.forward + multiset{ResumeSignal(Sender)};
    ReplayEnds(s.sender, s.back);
    ReplayEnds(next.sender, s.back);
    MessageTravelsAlone(Sender, SeenAfter(Nobody, s.back), s.forward, ResumeSignal(Sender),
                        s.receiver.paused, s.receiver.pausedBy);
  }

  lemma ReceiverPauseAgrees(s: State)
    requires Shape(s) && WillAgree(s) && !s.receiver.paused
    ensures var next := Do(s, ReceiverAsks(AskPause));
            && next.receiver.paused && next.back == s.back + ['P']
            && (WillAgree(next) <==> !Overlaps(s, ReceiverAsks(AskPause)))
  {
    var next := Do(s, ReceiverAsks(AskPause));
    assert ControlProtocol.Bytes([PauseSignal(Receiver)]) == ['P'];
    assert next.forward == s.forward;
    ReplayEnds(s.sender, s.back);
    ReplayEnds(s.sender, next.back);
    ReceiverChangesAlone(SeenAfter(s.sender.pausedBy, s.back), SeenAfter(s.sender.pausedBy, next.back), s.forward,
                         false, s.receiver.pausedBy, Receiver);
  }

  lemma ReceiverResumeAgrees(s: State)
    requires Shape(s) && WillAgree(s) && s.receiver.pausedBy == Receiver
    ensures var next := Do(s, ReceiverAsks(AskResume));
            && !next.receiver.paused && next.back == s.back + ['R']
            && WillAgree(next)
  {
    var next := Do(s, ReceiverAsks(AskResume));
    assert ControlProtocol.Bytes([ResumeSignal(Receiver)]) == ['R'];
    assert next.forward == s.forward;
    ReplayEnds(s.sender, s.back);
    ReplayEnds(s.sender, next.back);
    PausedTravelsAlone(SeenAfter(s.sender.pausedBy, s.back), s.forward, s.receiver.pausedBy);
    ReceiverChangesAlone(SeenAfter(s.sender.pausedBy, s.back), SeenAfter(s.sender.pausedBy, next.back), s.forward,
                         true, s.receiver.pausedBy, Nobody);
  }

  lemma PausedTravelsAlone(seen: Party, forward: multiset<Signal>, owner: Party)
    ensures Bound(seen, forward, true, owner) ==> forward == multiset{}
  {
    if forward != multiset{} {
      var x :| x in forward;
      assert !Good(seen, true, OwnerAfter(x));
    }
  }

  /** A receiver that is paused has the pause, as long as the sides agree. */
  lemma PausedIsOwned(s: State)
    requires Shape(s) && WillAgree(s)
    ensures s.receiver.paused ==> s.receiver.pausedBy == Receiver
  {
    if s.forward != multiset{} {
      var x :| x in s.forward;
      assert Good(Replay(s.sender, s.back).pausedBy, s.receiver.paused, OwnerAfter(x));
    }
  }

  lemma ReceiverIdles(s: State, action: Action)
    requires (action == AskPause && s.receiver.paused) || (action == AskResume && s.receiver.pausedBy != Receiver)
    requires Shape(s) && (s.receiver.paused ==> s.receiver.pausedBy == Receiver)
    ensures Do(s, ReceiverAsks(action)) == s && !Overlaps(s, ReceiverAsks(action))
  {
    var o := Called(s.receiver, Pull, CallOf(action, Receiver));
    assert o.signals == [] && o.control == s.receiver;
    assert s.back + ControlProtocol.Bytes([]) == s.back;
  }

  lemma SenderStepAgrees(s: State, action: Action)
    requires Shape(s) && WillAgree(s) && BackEnds(s) && action != AskCancel
    ensures var next := Do(s, SenderAsks(action));
            (WillAgree(next) <==> !Overlaps(s, SenderAsks(action))) && BackEnds(next)
  {
    if action == AskPause && !s.sender.paused {
      SenderPauseAgrees(s);
    } else if action == AskResume && s.sender.pausedBy == Sender {
      SenderResumeAgrees(s);
    } else {
      SenderIdles(s, action);
    }
  }

  lemma ReceiverStepAgrees(s: State, action: Action)
    requires Shape(s) && WillAgree(s) && BackEnds(s) && action != AskCancel
    ensures var next := Do(s, ReceiverAsks(action));
            (WillAgree(next) <==> !Overlaps(s, ReceiverAsks(action))) && BackEnds(next)
  {
    PausedIsOwned(s);
    if action == AskPause && !s.receiver.paused {
      ReceiverPauseAgrees(s);
    } else if action == AskResume && s.receiver.pausedBy == Receiver {
      ReceiverResumeAgrees(s);
    } else {
      ReceiverIdles(s, action);
    }
  }

  lemma DeliveryKeepsBackEnds(s: State, step: Step)
    requires Shape(s) && BackEnds(s) && IsDelivery(step)
    ensures BackEnds(Do(s, step))
  {
    match step {
      case ReadBack => if s.back != [] { ReadingKeepsShape(s); }
      case Accept(m) => if m in s.forward { AcceptingKeepsShape(s, m); }
    }
  }

  lemma StepAgrees(s: State, step: Step)
    requires Shape(s) && WillAgree(s) && BackEnds(s)
    requires step != SenderAsks(AskCancel) && step != ReceiverAsks(AskCancel)
    ensures WillAgree(Do(s, step)) <==> !Overlaps(s, step)
    ensures BackEnds(Do(s, step))
  {
    match step {
      case SenderAsks(action) => SenderStepAgrees(s, action);
      case ReceiverAsks(action) => ReceiverStepAgrees(s, action);
      case _ =>
        DeliveryKeepsBackEnds(s, step);
        DeliveryKeepsAgreement(s, step);
    }
  }

  predicate OverlapsAt(steps: seq<Step>, n: nat)
    requires n < |steps|
  {
    Overlaps(Run(INIT, steps[..n]), steps[n])
  }

  ghost predicate SettlesAt(steps: seq<Step>, n: nat)
    requires n <= |steps|
  {
    Settles(Run(INIT, steps[..n]))
  }

  ghost predicate WillAgreeAt(steps: seq<Step>, n: nat)
    requires n <= |steps|
  {
    WillAgree(Run(INIT, steps[..n]))
  }

  lemma RunNext(steps: seq<Step>, n: nat)
    requires n < |steps|
    ensures Run(INIT, steps[..n + 1]) == Do(Run(INIT, steps[..n]), steps[n])
  {
    assert steps[..n + 1][..n] == steps[..n] && steps[..n + 1][n] == steps[n];
  }

  lemma UncancelledBefore(s: State, step: Step)
    requires Uncancelled(Do(s, step))
    ensures Uncancelled(s) && step != SenderAsks(AskCancel) && step != ReceiverAsks(AskCancel)
  {
    StepNeverUncancels(s, step);
    CancelCancels(s);
  }

  lemma {:induction false} PrefixesHaveShape(steps: seq<Step>, n: nat)
    requires n <= |steps| && Uncancelled(Run(INIT, steps[..n]))
    ensures Shape(Run(INIT, steps[..n]))
    ensures n > 0 ==> Uncancelled(Run(INIT, steps[..n - 1]))
    ensures n > 0 ==> steps[n - 1] != SenderAsks(AskCancel) && steps[n - 1] != ReceiverAsks(AskCancel)
  {
    if n > 0 {
      RunNext(steps, n - 1);
      UncancelledBefore(Run(INIT, steps[..n - 1]), steps[n - 1]);
      PrefixesHaveShape(steps, n - 1);
      StepKeepsShape(Run(INIT, steps[..n - 1]), steps[n - 1]);
    }
  }

  predicate BackEndsAt(steps: seq<Step>, n: nat)
    requires n <= |steps|
  {
    BackEnds(Run(INIT, steps[..n]))
  }

  lemma NextAgrees(steps: seq<Step>, n: nat)
    requires n < |steps| && Uncancelled(Run(INIT, steps[..n + 1]))
    ensures Uncancelled(Run(INIT, steps[..n]))
    ensures WillAgreeAt(steps, n) && BackEndsAt(steps, n) ==>
              (WillAgreeAt(steps, n + 1) <==> !OverlapsAt(steps, n)) && BackEndsAt(steps, n + 1)
  {
    PrefixesHaveShape(steps, n + 1);
    PrefixesHaveShape(steps, n);
    RunNext(steps, n);
    if WillAgreeAt(steps, n) && BackEndsAt(steps, n) {
      StepAgrees(Run(INIT, steps[..n]), steps[n]);
    }
  }

  lemma SettlesIffAgrees(steps: seq<Step>, n: nat)
    requires n <= |steps| && Uncancelled(Run(INIT, steps[..n]))
    ensures SettlesAt(steps, n) <==> WillAgreeAt(steps, n)
  {
    PrefixesHaveShape(steps, n);
    WillAgreeIffSettles(Run(INIT, steps[..n]));
  }

  lemma InitAgrees(steps: seq<Step>)
    ensures WillAgreeAt(steps, 0) && BackEndsAt(steps, 0)
  {
    assert steps[..0] == [];
  }

  /** If each step keeps the agreement exactly when it does not overlap, the rest is induction. */
  ghost predicate StepByStep(agree: seq<bool>, ends: seq<bool>, overlap: seq<bool>) {
    && |agree| == |ends| == |overlap| + 1 && agree[0] && ends[0]
    && forall n :: 0 <= n < |overlap| && agree[n] && ends[n] ==> (agree[n + 1] <==> !overlap[n]) && ends[n + 1]
  }

  lemma {:induction false} AgreesUntilOverlap(agree: seq<bool>, ends: seq<bool>, overlap: seq<bool>, n: nat)
    requires StepByStep(agree, ends, overlap) && n <= |overlap|
    requires (forall m :: 0 <= m < n ==> !overlap[m]) || (forall m :: 0 <= m <= n ==> agree[m])
    ensures agree[n] && ends[n]
  {
    if n > 0 {
      AgreesUntilOverlap(agree, ends, overlap, n - 1);
    }
  }

  lemma AgreeIffNoneOverlaps(agree: seq<bool>, ends: seq<bool>, overlap: seq<bool>)
    requires StepByStep(agree, ends, overlap)
    ensures (forall n :: 0 <= n < |agree| ==> agree[n]) <==> (forall n :: 0 <= n < |overlap| ==> !overlap[n])
  {
    if (forall n :: 0 <= n < |agree| ==> agree[n]) || (forall n :: 0 <= n < |overlap| ==> !overlap[n]) {
      forall n | 0 <= n <= |overlap| ensures agree[n] && ends[n] {
        AgreesUntilOverlap(agree, ends, overlap, n);
      }
      assert forall n :: 0 <= n < |overlap| ==> agree[n + 1] == !overlap[n];
    }
  }

  /** What happens at each point of a run, as three lists. */
  ghost predicate IsHistory(steps: seq<Step>, agree: seq<bool>, ends: seq<bool>, overlap: seq<bool>) {
    && |agree| == |ends| == |steps| + 1 && |overlap| == |steps|
    && (forall n :: 0 <= n < |agree| ==> agree[n] == WillAgreeAt(steps, n))
    && (forall n :: 0 <= n < |ends| ==> ends[n] == BackEndsAt(steps, n))
    && (forall n :: 0 <= n < |overlap| ==> overlap[n] == OverlapsAt(steps, n))
  }

  lemma HasHistory(steps: seq<Step>) returns (agree: seq<bool>, ends: seq<bool>, overlap: seq<bool>)
    ensures IsHistory(steps, agree, ends, overlap)
  {
    agree := seq(|steps| + 1, n requires 0 <= n <= |steps| => WillAgreeAt(steps, n));
    ends := seq(|steps| + 1, n requires 0 <= n <= |steps| => BackEndsAt(steps, n));
    overlap := seq(|steps|, n requires 0 <= n < |steps| => OverlapsAt(steps, n));
  }

  lemma HistoryGoesStepByStep(steps: seq<Step>, agree: seq<bool>, ends: seq<bool>, overlap: seq<bool>)
    requires IsHistory(steps, agree, ends, overlap) && Uncancelled(Run(INIT, steps))
    ensures StepByStep(agree, ends, overlap)
  {
    InitAgrees(steps);
    forall n | 0 <= n < |overlap| && agree[n] && ends[n] ensures (agree[n + 1] <==> !overlap[n]) && ends[n + 1] {
      PrefixUncancelled(steps, n + 1);
      NextAgrees(steps, n);
    }
  }

  lemma {:induction false} PrefixUncancelled(steps: seq<Step>, n: nat)
    requires n <= |steps| && Uncancelled(Run(INIT, steps))
    ensures Uncancelled(Run(INIT, steps[..n]))
    decreases |steps| - n
  {
    if n == |steps| {
      assert steps[..n] == steps;
    } else {
      PrefixUncancelled(steps, n + 1);
      RunNext(steps, n);
      UncancelledBefore(Run(INIT, steps[..n]), steps[n]);
    }
  }

  /** MAIN: up to the first cancel, the sides of a run are bound to agree on the owner of the pause,
      at each of its points and for each order of delivery, if and only if no user's call overlaps
      a pause of the other side or a message in flight. */
  lemma AgreementIffNoOverlap(steps: seq<Step>)
    requires Uncancelled(Run(INIT, steps))
    ensures (forall n :: 0 <= n <= |steps| ==> SettlesAt(steps, n))
       <==> (forall n :: 0 <= n < |steps| ==> !OverlapsAt(steps, n))
  {
    var agree, ends, overlap := HasHistory(steps);
    HistoryGoesStepByStep(steps, agree, ends, overlap);
    AgreeIffNoneOverlaps(agree, ends, overlap);
    forall n | 0 <= n <= |steps| ensures SettlesAt(steps, n) <==> agree[n] {
      PrefixUncancelled(steps, n);
      SettlesIffAgrees(steps, n);
    }
  }

  //
  // Two runs that overlap without crossing pauses, and end in disagreement.
  //

  const SECOND_PAUSE: seq<Step> := [SenderAsks(AskPause)] + [Accept(PauseSignal(Sender))]
                                   + [ReceiverAsks(AskPause)] + [ReadBack]
                                   + [SenderAsks(AskResume)] + [Accept(ResumeSignal(Sender))]

  /** Nothing crosses, but the receiver pauses during the sender's pause, which it has been told of:
      after the sender resumes, it stays paused without an owner. */
  lemma SecondPauseIsStranded()
    ensures var now := Run(INIT, SECOND_PAUSE);
            Quiet(now) && !now.sender.paused && now.receiver.paused && now.receiver.pausedBy == Nobody
  {
    var p1 := [SenderAsks(AskPause)];
    RunOneMore([], SenderAsks(AskPause));
    assert [] + p1 == p1;
    var s1 := State(FRESH.(paused := true, pausedBy := Sender), FRESH, [], multiset{PauseSignal(Sender)}, 0, 0);
    assert Run(INIT, p1) == s1;
    var p2 := p1 + [Accept(PauseSignal(Sender))];
    RunOneMore(p1, Accept(PauseSignal(Sender)));
    var p3 := p2 + [ReceiverAsks(AskPause)];
    RunOneMore(p2, ReceiverAsks(AskPause));
    var p4 := p3 + [ReadBack];
    RunOneMore(p3, ReadBack);
    SecondPauseIsIgnored(s1);
    ResumeLeavesReceiverPaused(Run(INIT, p4));
    RunOneMore(p4, SenderAsks(AskResume));
    RunOneMore(p4 + [SenderAsks(AskResume)], Accept(ResumeSignal(Sender)));
  }

  lemma ReceiverPauses(s: State)
    requires !s.receiver.paused && !s.receiver.canceled
    ensures Do(s, ReceiverAsks(AskPause))
         == s.(receiver := s.receiver.(paused := true, pausedBy := Receiver), back := s.back + ['P'])
  {
    assert ControlProtocol.Bytes([PauseSignal(Receiver)]) == ['P'];
  }

  lemma SecondPauseIsIgnored(s: State)
    requires s.sender == FRESH.(paused := true, pausedBy := Sender) && s.receiver == FRESH
    requires s.back == [] && s.forward == multiset{PauseSignal(Sender)}
    ensures Do(Do(Do(s, Accept(PauseSignal(Sender))), ReceiverAsks(AskPause)), ReadBack)
         == s.(receiver := FRESH.(paused := true, pausedBy := Receiver), forward := multiset{})
  {
    AcceptingKeepsShape(s, PauseSignal(Sender));
    var heard := Do(s, Accept(PauseSignal(Sender)));
    ReceiverPauses(heard);
    var paused := Do(heard, ReceiverAsks(AskPause));
    assert paused.back == ['P'] && ['P'][1..] == [];
    ReadingKeepsShape(paused);
  }

  const OVERTAKEN: seq<Step> := [SenderAsks(AskPause)] + [SenderAsks(AskResume)]
                                + [Accept(ResumeSignal(Sender))] + [Accept(PauseSignal(Sender))]

  /** The sender's user alone: the resume overtakes the pause, and the receiver goes on showing a
      pause that has ended. */
  lemma OvertakenPauseIsShown()
    ensures var now := Run(INIT, OVERTAKEN);
            Quiet(now) && !now.sender.paused && !now.receiver.paused && now.receiver.pausedBy == Sender
  {
    var p1 := [SenderAsks(AskPause)];
    RunOneMore([], SenderAsks(AskPause));
    assert [] + p1 == p1;
    var s1 := State(FRESH.(paused := true, pausedBy := Sender), FRESH, [], multiset{PauseSignal(Sender)}, 0, 0);
    assert Run(INIT, p1) == s1;
    var p2 := p1 + [SenderAsks(AskResume)];
    RunOneMore(p1, SenderAsks(AskResume));
    var p3 := p2 + [Accept(ResumeSignal(Sender))];
    RunOneMore(p2, Accept(ResumeSignal(Sender)));
    RunOneMore(p3, Accept(PauseSignal(Sender)));
    PauseComesLast(s1);
  }

  lemma PauseComesLast(s: State)
    requires s.sender == FRESH.(paused := true, pausedBy := Sender) && s.receiver == FRESH
    requires s.back == [] && s.forward == multiset{PauseSignal(Sender)}
    ensures Do(Do(Do(s, SenderAsks(AskResume)), Accept(ResumeSignal(Sender))), Accept(PauseSignal(Sender)))
         == s.(sender := FRESH.(resumeToken := true), receiver := FRESH.(pausedBy := Sender), forward := multiset{})
  {
    SenderResumes(s);
    var resumed := Do(s, SenderAsks(AskResume));
    AcceptingKeepsShape(resumed, ResumeSignal(Sender));
    var heard := Do(resumed, Accept(ResumeSignal(Sender)));
    assert heard.forward == multiset{PauseSignal(Sender)};
    AcceptingKeepsShape(heard, PauseSignal(Sender));
  }
}
