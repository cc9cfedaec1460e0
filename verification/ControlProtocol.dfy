/** Both ends of one transfer: an ordered byte channel from receiver to sender, and unordered
    control messages from sender to receiver. */
module ControlProtocol {
  import opened ProgressWriter

  /** `back` holds the bytes still to be read by the sender, oldest first. `forward` holds the
      messages on their own connections. The counters count cancel signals ever sent. */
  datatype State = State(sender: Control, receiver: Control, back: seq<char>, forward: multiset<Signal>,
                         senderCancels: nat, receiverCancels: nat)

  const INIT := State(FRESH, FRESH, [], multiset{}, 0, 0)

  /** A user at the sender or the receiver, the sender's read loop, or an incoming connection. */
  datatype Step =
    | SenderAsks(action: Action)
    | ReceiverAsks(action: Action)
    | ReadBack
    | Accept(message: Signal)

  datatype Action = AskPause | AskResume | AskCancel

  function CallOf(action: Action, side: Party): Call {
    match action
    case AskPause => CallPause(side)
    case AskResume => CallResume(side)
    case AskCancel => CallCancel
  }

  /** The byte a signal is sent as on the back-channel. */
  function Code(s: Signal): char {
    match s
    case PauseSignal(_) => 'P'
    case ResumeSignal(_) => 'R'
    case CancelSignal => 'C'
  }

  /** What the sender's read loop does with a byte; other bytes are skipped. */
  function OnByte(c: Control, b: char): Outcome {
    if b == 'P' then Paused(c, Push, Receiver)
    else if b == 'R' then Resumed(c, Push, Receiver)
    else if b == 'C' then Canceled(c)
    else Outcome(c, [], true)
  }

  /** What the receiver does with a control message: the sender's pauses and resumes only change
      the owner that is shown. */
  function OnMessage(c: Control, m: Signal): Outcome {
    match m
    case PauseSignal(who) => if who == Sender then Called(c, Pull, CallNotifyPausedBy(Sender)) else Paused(c, Pull, who)
    case ResumeSignal(who) => if who == Sender then Called(c, Pull, CallNotifyResumed) else Resumed(c, Pull, who)
    case CancelSignal => Canceled(c)
  }

  function Bytes(signals: seq<Signal>): seq<char> {
    seq(|signals|, i requires 0 <= i < |signals| => Code(signals[i]))
  }

  function Cancels(signals: seq<Signal>): nat {
    multiset(signals)[CancelSignal]
  }

  function SenderMoves(s: State, o: Outcome): State {
    s.(sender := o.control, forward := s.forward + multiset(o.signals),
       senderCancels := s.senderCancels + Cancels(o.signals))
  }

  function ReceiverMoves(s: State, o: Outcome): State {
    s.(receiver := o.control, back := s.back + Bytes(o.signals),
       receiverCancels := s.receiverCancels + Cancels(o.signals))
  }

  function Do(s: State, step: Step): State {
    match step
    case SenderAsks(action) => SenderMoves(s, Called(s.sender, Push, CallOf(action, Sender)))
    case ReceiverAsks(action) => ReceiverMoves(s, Called(s.receiver, Pull, CallOf(action, Receiver)))
    case ReadBack =>
      if s.back == [] then s else SenderMoves(s.(back := s.back[1..]), OnByte(s.sender, s.back[0]))
    case Accept(m) =>
      if m !in s.forward then s else ReceiverMoves(s.(forward := s.forward - multiset{m}), OnMessage(s.receiver, m))
  }

  function Run(s: State, steps: seq<Step>): State {
    if steps == [] then s else Do(Run(s, steps[..|steps| - 1]), steps[|steps| - 1])
  }

  /** A cancel one side has taken is on its way to the other, and was signalled exactly once. */
  ghost predicate CancelInv(s: State) {
    && s.senderCancels == (if s.sender.canceled then 1 else 0)
    && s.receiverCancels == (if s.receiver.canceled then 1 else 0)
    && (s.sender.canceled && !s.receiver.canceled ==> CancelSignal in s.forward)
    && (s.receiver.canceled && !s.sender.canceled ==> 'C' in s.back)
  }

  /** The three shapes a call's signals take, and that only a first cancel signals a cancel. */
  lemma SignalShapes(o: Outcome, c: Control)
    requires o.signals == [] || exists x :: o.signals == [x]
    ensures |Bytes(o.signals)| == |o.signals|
    ensures Cancels(o.signals) == if o.signals == [CancelSignal] then 1 else 0
    ensures o.signals == [CancelSignal] ==> 'C' in Bytes(o.signals) && CancelSignal in multiset(o.signals)
  {
    if o.signals != [] {
      assert Bytes(o.signals)[0] == Code(o.signals[0]);
    }
  }

  lemma SenderMoveKeepsCancelInv(s: State, o: Outcome)
    requires o.control.canceled == (s.sender.canceled || o.signals == [CancelSignal])
    requires s.sender.canceled ==> o.signals == []
    requires o.signals == [] || exists x :: o.signals == [x]
    requires s.senderCancels == (if s.sender.canceled then 1 else 0)
    requires s.receiverCancels == (if s.receiver.canceled then 1 else 0)
    requires s.sender.canceled && !s.receiver.canceled ==> CancelSignal in s.forward
    requires s.receiver.canceled && !o.control.canceled ==> 'C' in s.back
    ensures CancelInv(SenderMoves(s, o))
  {
    SignalShapes(o, s.sender);
  }

  lemma ReceiverMoveKeepsCancelInv(s: State, o: Outcome)
    requires o.control.canceled == (s.receiver.canceled || o.signals == [CancelSignal])
    requires s.receiver.canceled ==> o.signals == []
    requires o.signals == [] || exists x :: o.signals == [x]
    requires s.senderCancels == (if s.sender.canceled then 1 else 0)
    requires s.receiverCancels == (if s.receiver.canceled then 1 else 0)
    requires s.sender.canceled && !o.control.canceled ==> CancelSignal in s.forward
    requires s.receiver.canceled && !s.sender.canceled ==> 'C' in s.back
    ensures CancelInv(ReceiverMoves(s, o))
  {
    SignalShapes(o, s.receiver);
  }

  lemma ReadingKeepsCancelInv(s: State)
    requires CancelInv(s) && s.back != []
    ensures CancelInv(Do(s, ReadBack))
  {
    assert s.back == [s.back[0]] + s.back[1..];
    SenderMoveKeepsCancelInv(s.(back := s.back[1..]), OnByte(s.sender, s.back[0]));
  }

  lemma AcceptingKeepsCancelInv(s: State, m: Signal)
    requires CancelInv(s) && m in s.forward
    ensures CancelInv(Do(s, Accept(m)))
  {
    ReceiverMoveKeepsCancelInv(s.(forward := s.forward - multiset{m}), OnMessage(s.receiver, m));
  }

  lemma StepKeepsCancelInv(s: State, step: Step)
    requires CancelInv(s)
    ensures CancelInv(Do(s, step))
    ensures s.sender.canceled ==> Do(s, step).sender.canceled
    ensures s.receiver.canceled ==> Do(s, step).receiver.canceled
  {
    match step {
      case SenderAsks(action) =>
        SenderMoveKeepsCancelInv(s, Called(s.sender, Push, CallOf(action, Sender)));
      case ReceiverAsks(action) =>
        ReceiverMoveKeepsCancelInv(s, Called(s.receiver, Pull, CallOf(action, Receiver)));
      case ReadBack =>
        if s.back != [] { ReadingKeepsCancelInv(s); }
      case Accept(m) =>
        if m in s.forward { AcceptingKeepsCancelInv(s, m); }
    }
  }

  /** MAIN: in every run each side signals a cancel at most once, and exactly if it is cancelled;
      when no cancel is in flight, both sides are cancelled or neither is. */
  lemma {:induction false} CancelReachesBothSides(steps: seq<Step>)
    ensures var now := Run(INIT, steps);
            && CancelInv(now)
            && now.senderCancels + now.receiverCancels <= 2
            && (CancelSignal !in now.forward && 'C' !in now.back ==> now.sender.canceled == now.receiver.canceled)
  {
    if steps != [] {
      CancelReachesBothSides(steps[..|steps| - 1]);
      StepKeepsCancelInv(Run(INIT, steps[..|steps| - 1]), steps[|steps| - 1]);
    }
  }

  /** Cancelled is absorbing on each side. */
  lemma {:induction false} CancelIsFinal(steps: seq<Step>, n: nat)
    requires n <= |steps|
    ensures var then', now := Run(INIT, steps[..n]), Run(INIT, steps);
            && (then'.sender.canceled ==> now.sender.canceled)
            && (then'.receiver.canceled ==> now.receiver.canceled)
  {
    if n == |steps| {
      assert steps[..n] == steps;
    } else {
      var k := |steps| - 1;
      CancelIsFinal(steps[..k], n);
      assert steps[..k][..n] == steps[..n];
      CancelReachesBothSides(steps[..k]);
      StepKeepsCancelInv(Run(INIT, steps[..k]), steps[k]);
    }
  }

  /** Every message the sender ever puts on a connection names the sender, or is a cancel. */
  ghost predicate OwnMessages(s: State) {
    forall m :: m in s.forward ==> m == PauseSignal(Sender) || m == ResumeSignal(Sender) || m == CancelSignal
  }

  lemma SenderMoveSendsOwnMessages(s: State, o: Outcome)
    requires OwnMessages(s)
    requires o.signals == [] || o.signals == [PauseSignal(Sender)] || o.signals == [ResumeSignal(Sender)]
             || o.signals == [CancelSignal]
    ensures OwnMessages(SenderMoves(s, o))
  {
  }

  lemma StepSendsOwnMessages(s: State, step: Step)
    requires OwnMessages(s)
    ensures OwnMessages(Do(s, step))
  {
    match step {
      case SenderAsks(action) => SenderMoveSendsOwnMessages(s, Called(s.sender, Push, CallOf(action, Sender)));
      case ReadBack =>
        if s.back != [] { SenderMoveSendsOwnMessages(s.(back := s.back[1..]), OnByte(s.sender, s.back[0])); }
      case _ =>
    }
  }

  lemma {:induction false} EveryRunSendsOwnMessages(steps: seq<Step>)
    ensures OwnMessages(Run(INIT, steps))
  {
    if steps != [] {
      EveryRunSendsOwnMessages(steps[..|steps| - 1]);
      StepSendsOwnMessages(Run(INIT, steps[..|steps| - 1]), steps[|steps| - 1]);
    }
  }

  /** Deliveries still possible: messages in flight, and one for each side not yet cancelled. */
  function Load(s: State): nat {
    |s.back| + |s.forward| + (if s.sender.canceled then 0 else 1) + (if s.receiver.canceled then 0 else 1)
  }

  lemma ReadingShrinksLoad(s: State)
    requires s.back != []
    ensures Load(Do(s, ReadBack)) < Load(s)
  {
    var o := OnByte(s.sender, s.back[0]);
    assert o.signals == [] || (o.signals == [CancelSignal] && !s.sender.canceled && o.control.canceled);
    assert |multiset(o.signals)| == |o.signals|;
  }

  lemma AcceptingShrinksLoad(s: State, m: Signal)
    requires OwnMessages(s) && m in s.forward
    ensures Load(Do(s, Accept(m))) < Load(s)
  {
    var o := OnMessage(s.receiver, m);
    assert o.signals == [] || (o.signals == [CancelSignal] && !s.receiver.canceled && o.control.canceled);
    assert |s.forward - multiset{m}| == |s.forward| - 1;
  }

  /** Something the network does, as opposed to a user. */
  predicate IsDelivery(step: Step) {
    step.ReadBack? || step.Accept?
  }

  /** A delivery that has something to deliver. */
  predicate Enabled(s: State, step: Step) {
    match step
    case ReadBack => s.back != []
    case Accept(m) => m in s.forward
    case _ => false
  }

  lemma DeliveryShrinksLoad(s: State, step: Step)
    requires OwnMessages(s) && Enabled(s, step)
    ensures Load(Do(s, step)) < Load(s)
  {
    match step {
      case ReadBack => ReadingShrinksLoad(s);
      case Accept(m) => AcceptingShrinksLoad(s, m);
    }
  }

  ghost predicate EachEnabled(s: State, ds: seq<Step>) {
    forall n :: 0 <= n < |ds| ==> Enabled(Run(s, ds[..n]), ds[n])
  }

  lemma {:induction false} EachDeliveryShrinksLoad(s: State, ds: seq<Step>)
    requires OwnMessages(s) && EachEnabled(s, ds)
    ensures OwnMessages(Run(s, ds)) && Load(Run(s, ds)) + |ds| <= Load(s)
  {
    if ds != [] {
      var k := |ds| - 1;
      forall n | 0 <= n < k ensures Enabled(Run(s, ds[..k][..n]), ds[..k][n]) {
        assert ds[..k][..n] == ds[..n];
      }
      EachDeliveryShrinksLoad(s, ds[..k]);
      DeliveryShrinksLoad(Run(s, ds[..k]), ds[k]);
      StepSendsOwnMessages(Run(s, ds[..k]), ds[k]);
    }
  }

  /** MAIN: the echo ends. After any run, once the users stop asking, there are at most as many
      deliveries as the load says, in whatever order they come. */
  lemma DeliveriesRunOut(steps: seq<Step>, ds: seq<Step>)
    requires EachEnabled(Run(INIT, steps), ds)
    ensures Load(Run(Run(INIT, steps), ds)) + |ds| <= Load(Run(INIT, steps))
  {
    EveryRunSendsOwnMessages(steps);
    EachDeliveryShrinksLoad(Run(INIT, steps), ds);
  }

  /** The sender after it has read these bytes too. */
  function Replay(c: Control, back: seq<char>): Control {
    if back == [] then c else OnByte(Replay(c, back[..|back| - 1]), back[|back| - 1]).control
  }

  lemma {:induction false} ReplayHead(c: Control, back: seq<char>)
    requires back != []
    ensures Replay(c, back) == Replay(OnByte(c, back[0]).control, back[1..])
  {
    if |back| > 1 {
      ReplayHead(c, back[..|back| - 1]);
      assert back[..|back| - 1][1..] == back[1..][..|back| - 2];
    } else {
      assert back[..0] == [] && back[1..] == [];
    }
  }

  predicate SamePause(a: Control, b: Control) {
    a.paused == b.paused && a.pausedBy == b.pausedBy
  }

  /** Not cancelled, and free or paused by the receiver. */
  predicate ReceiverOwned(c: Control) {
    !c.canceled && c.pausedBy == if c.paused then Receiver else Nobody
  }

  predicate Uncancelled(s: State) {
    !s.sender.canceled && !s.receiver.canceled
  }

  predicate PausesOnly(back: seq<char>) {
    forall i :: 0 <= i < |back| ==> back[i] == 'P' || back[i] == 'R'
  }

  /** Reading the pending bytes would give the sender the receiver's pause. */
  ghost predicate BackInv(s: State) {
    && ReceiverOwned(s.sender) && ReceiverOwned(s.receiver)
    && s.forward == multiset{}
    && PausesOnly(s.back)
    && SamePause(Replay(s.sender, s.back), s.receiver)
  }

  lemma {:induction false} ReplayStaysOwned(c: Control, back: seq<char>)
    requires ReceiverOwned(c) && PausesOnly(back)
    ensures ReceiverOwned(Replay(c, back))
  {
    if back != [] {
      ReplayStaysOwned(c, back[..|back| - 1]);
    }
  }

  lemma ByteKeepsOwned(c: Control, b: char)
    requires ReceiverOwned(c) && (b == 'P' || b == 'R')
    ensures ReceiverOwned(OnByte(c, b).control) && OnByte(c, b).signals == []
  {
  }

  /** A receiver's pause or resume, and the byte it sends, keep the simulation. */
  lemma ReceiverKeepsBackInv(s: State, o: Outcome)
    requires BackInv(s)
    requires o == Paused(s.receiver, Pull, Receiver) || o == Resumed(s.receiver, Pull, Receiver)
    ensures BackInv(ReceiverMoves(s, o))
  {
    var seen := Replay(s.sender, s.back);
    ReplayStaysOwned(s.sender, s.back);
    var back := s.back + Bytes(o.signals);
    if o.signals == [] {
      assert back == s.back;
    } else {
      assert |o.signals| == 1;
      assert back[..|back| - 1] == s.back && back[|back| - 1] == Code(o.signals[0]);
      assert Replay(s.sender, back) == OnByte(seen, Code(o.signals[0])).control;
      assert SamePause(OnByte(seen, Code(o.signals[0])).control, o.control);
      assert ReceiverOwned(o.control);
    }
    assert PausesOnly(back);
  }

  lemma ReadingKeepsBackInv(s: State)
    requires BackInv(s) && s.back != []
    ensures BackInv(Do(s, ReadBack))
  {
    ReplayHead(s.sender, s.back);
    ByteKeepsOwned(s.sender, s.back[0]);
    assert multiset(OnByte(s.sender, s.back[0]).signals) == multiset{};
  }

  /** A step of the regime either cancels somebody or keeps the simulation. */
  lemma StepKeepsBackInv(s: State, step: Step)
    requires BackInv(s) && step != SenderAsks(AskPause)
    ensures Uncancelled(Do(s, step)) ==> BackInv(Do(s, step))
  {
    match step {
      case SenderAsks(action) => if action == AskResume { SenderResumeIsIdle(s); }
      case ReceiverAsks(action) =>
        if action != AskCancel { ReceiverKeepsBackInv(s, Called(s.receiver, Pull, CallOf(action, Receiver))); }
      case ReadBack => if s.back != [] { ReadingKeepsBackInv(s); }
      case Accept(m) =>
    }
  }

  lemma SenderResumeIsIdle(s: State)
    requires BackInv(s)
    ensures Do(s, SenderAsks(AskResume)) == s
  {
    var o := Resumed(s.sender, Push, Sender);
    assert o.control == s.sender && o.signals == [];
  }

  lemma StepNeverUncancels(s: State, step: Step)
    ensures Uncancelled(Do(s, step)) ==> Uncancelled(s)
  {
    match step {
      case SenderAsks(action) =>
        assert Called(s.sender, Push, CallOf(action, Sender)).control.canceled || !s.sender.canceled;
      case ReceiverAsks(action) =>
        assert Called(s.receiver, Pull, CallOf(action, Receiver)).control.canceled || !s.receiver.canceled;
      case ReadBack => assert s.back == [] || OnByte(s.sender, s.back[0]).control.canceled || !s.sender.canceled;
      case Accept(m) => assert OnMessage(s.receiver, m).control.canceled || !s.receiver.canceled;
    }
  }

  lemma {:induction false} EveryRunHasBackInv(steps: seq<Step>)
    requires SenderAsks(AskPause) !in steps
    requires Uncancelled(Run(INIT, steps))
    ensures BackInv(Run(INIT, steps))
  {
    if steps != [] {
      var before := steps[..|steps| - 1];
      assert forall step :: step in before ==> step in steps;
      StepNeverUncancels(Run(INIT, before), steps[|steps| - 1]);
      EveryRunHasBackInv(before);
      StepKeepsBackInv(Run(INIT, before), steps[|steps| - 1]);
    }
  }

  /** MAIN: in every run where the sender's user never pauses, up to the first cancel, reading the
      pending bytes gives the sender the receiver's pause and owner: the two agree whenever the
      channel is empty. The sender's user can resume as often as he likes without any effect. */
  lemma BackChannelSimulates(steps: seq<Step>)
    requires SenderAsks(AskPause) !in steps
    requires Uncancelled(Run(INIT, steps))
    ensures var now := Run(INIT, steps);
            && SamePause(Replay(now.sender, now.back), now.receiver)
            && (now.back == [] ==> SamePause(now.sender, now.receiver))
            && Do(now, SenderAsks(AskResume)) == now
  {
    EveryRunHasBackInv(steps);
    SenderResumeIsIdle(Run(INIT, steps));
  }

  lemma RunOneMore(steps: seq<Step>, step: Step)
    ensures Run(INIT, steps + [step]) == Do(Run(INIT, steps), step)
  {
    assert (steps + [step])[..|steps|] == steps;
  }

  /** Both users pause before either hears of the other. */
  lemma PausesCross()
    ensures Run(INIT, [SenderAsks(AskPause), ReceiverAsks(AskPause)])
         == State(FRESH.(paused := true, pausedBy := Sender), FRESH.(paused := true, pausedBy := Receiver),
                  ['P'], multiset{PauseSignal(Sender)}, 0, 0)
  {
    RunOneMore([], SenderAsks(AskPause));
    RunOneMore([SenderAsks(AskPause)], ReceiverAsks(AskPause));
    assert [] + [SenderAsks(AskPause)] == [SenderAsks(AskPause)];
    assert [SenderAsks(AskPause)] + [ReceiverAsks(AskPause)] == [SenderAsks(AskPause), ReceiverAsks(AskPause)];
    assert Run(INIT, [SenderAsks(AskPause)])
        == State(FRESH.(paused := true, pausedBy := Sender), FRESH, [], multiset{PauseSignal(Sender)}, 0, 0);
  }

  const CROSSING: seq<Step> := [SenderAsks(AskPause), ReceiverAsks(AskPause)]
                               + [Accept(PauseSignal(Sender))] + [ReadBack]
                               + [SenderAsks(AskResume)] + [Accept(ResumeSignal(Sender))]

  /** Pauses from both users that cross on the wire: after the sender resumes and everything is
      delivered, the receiver alone is still paused, without an owner. */
  lemma CrossingPausesDisagree()
    ensures var now := Run(INIT, CROSSING);
            && now.back == [] && now.forward == multiset{}
            && !now.sender.paused && now.receiver.paused && now.receiver.pausedBy == Nobody
  {
    PausesCross();
    PausesAreBothIgnored(Run(INIT, [SenderAsks(AskPause), ReceiverAsks(AskPause)]));
    var p2 := [SenderAsks(AskPause), ReceiverAsks(AskPause)];
    var p3 := p2 + [Accept(PauseSignal(Sender))];
    RunOneMore(p2, Accept(PauseSignal(Sender)));
    var p4 := p3 + [ReadBack];
    RunOneMore(p3, ReadBack);
    ResumeLeavesReceiverPaused(Run(INIT, p4));
    RunOneMore(p4, SenderAsks(AskResume));
    RunOneMore(p4 + [SenderAsks(AskResume)], Accept(ResumeSignal(Sender)));
  }

  /** Either side ignores the other's pause, except for the owner the receiver shows. */
  lemma PausesAreBothIgnored(s: State)
    requires s.sender.paused && s.receiver.paused
    requires s.back == ['P'] && s.forward == multiset{PauseSignal(Sender)}
    ensures Do(Do(s, Accept(PauseSignal(Sender))), ReadBack)
         == s.(receiver := s.receiver.(pausedBy := Sender), back := [], forward := multiset{})
  {
    var next := Do(s, Accept(PauseSignal(Sender)));
    assert next == s.(receiver := s.receiver.(pausedBy := Sender), forward := multiset{});
    assert next.back[0] == 'P' && next.back[1..] == [];
  }

  /** The second half of the crossing: the sender's resume reaches a receiver paused on its own. */
  lemma ResumeLeavesReceiverPaused(s: State)
    requires s.sender.paused && s.sender.pausedBy == Sender && !s.sender.canceled
    requires s.receiver.paused && !s.receiver.canceled
    requires s.back == [] && s.forward == multiset{}
    ensures var now := Do(Do(s, SenderAsks(AskResume)), Accept(ResumeSignal(Sender)));
            && now.back == [] && now.forward == multiset{}
            && !now.sender.paused && now.receiver.paused && now.receiver.pausedBy == Nobody
  {
    assert Do(s, SenderAsks(AskResume)).forward == multiset{ResumeSignal(Sender)};
  }

  /** Bytes other than the three codes are skipped, wherever they come in the stream. */
  lemma {:induction false} OtherBytesAreSkipped(c: Control, before: seq<char>, b: char, after: seq<char>)
    requires b !in ['P', 'R', 'C']
    ensures Replay(c, before + [b] + after) == Replay(c, before + after)
  {
    if after == [] {
      assert (before + [b] + after)[..|before|] == before && before + after == before;
      assert before + [b] + after == before + [b];
    } else {
      var k := |after| - 1;
      OtherBytesAreSkipped(c, before, b, after[..k]);
      assert (before + [b] + after)[..|before| + 1 + k] == before + [b] + after[..k];
      assert (before + after)[..|before| + k] == before + after[..k];
    }
  }

  /** A pause in any name but the sender's really pauses the receiver, until a resume in that name. */
  lemma OtherNamesPauseForReal(c: Control, who: Party, other: Party)
    requires who != Sender && who != Nobody && other != who && other != Sender && !c.paused && !c.canceled
    ensures var paused := OnMessage(c, PauseSignal(who)).control;
            && paused.paused && paused.pausedBy == who
            && OnMessage(paused, ResumeSignal(other)).control == paused
            && !OnMessage(paused, ResumeSignal(who)).control.paused
            && OnMessage(paused, ResumeSignal(who)).control.pausedBy == Nobody
  {
  }
}
