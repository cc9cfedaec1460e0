/** Receivers, handlers of the user's decisions, polls and cancels in any order: which requests are
    lost, and that the first decision is the one that counts. */
module ApprovalMachine {
  import opened Wrappers

  /** One waiting receiver. `log` holds every decision sent to its channel, also those a full
      channel ignored; `buffer` is the channel and `outcome` what the receiver took from it. */
  datatype Request = Request(image: string, stored: bool, log: seq<bool>, buffer: Option<bool>, outcome: Option<bool>)

  /** What a handler has loaded, and whether it has cleared the queue since. */
  datatype Held = Held(id: nat, cleared: bool)

  datatype State = State(requests: map<nat, Request>, queue: seq<nat>, holding: map<nat, Held>,
                         pending: map<string, nat>)

  const INIT := State(map[], [], map[], map[])

  /** Register announces a new request, Store puts it in the queue, and Look is a poll for the front
      request. A handler h answers a request with LoadBy, ClearBy and SendBy, each under its own
      lock. CancelImage rejects by image name, and Take is the receiver reading its channel, which
      it can do before its request is stored. */
  datatype Step =
    | Register(id: nat, image: string)
    | Store(id: nat)
    | Look
    | LoadBy(h: nat)
    | ClearBy(h: nat)
    | SendBy(h: nat, approved: bool)
    | CancelImage(image: string)
    | Take(id: nat)

  predicate Resolved(s: State, id: nat) {
    id in s.requests && s.requests[id].buffer.Some?
  }

  function SkipResolved(s: State, queue: seq<nat>): seq<nat> {
    if queue == [] || !Resolved(s, queue[0]) then queue else SkipResolved(s, queue[1..])
  }

  function Sent(s: State, id: nat, decision: bool): State {
    if id !in s.requests then s
    else
      var r := s.requests[id];
      var buffer := if r.buffer.Some? then r.buffer else Some(decision);
      s.(requests := s.requests[id := r.(log := r.log + [decision], buffer := buffer)])
  }

  function Loaded(s: State): State {
    s.(queue := SkipResolved(s, s.queue))
  }

  function Cleared(s: State): State {
    s.(queue := if s.queue == [] then [] else s.queue[1..])
  }

  /** A handler with nothing to answer is done; a busy one has loaded already. */
  function HandlerLoads(s: State, h: nat): State {
    if h in s.holding then s
    else
      var found := Loaded(s);
      if found.queue == [] then found else found.(holding := found.holding[h := Held(found.queue[0], false)])
  }

  predicate CanClear(s: State, h: nat) {
    h in s.holding && !s.holding[h].cleared
  }

  function HandlerClears(s: State, h: nat): State {
    if !CanClear(s, h) then s
    else Cleared(s).(holding := s.holding[h := s.holding[h].(cleared := true)])
  }

  function HandlerSends(s: State, h: nat, approved: bool): State {
    if h !in s.holding || !s.holding[h].cleared then s
    else Sent(s.(holding := s.holding - {h}), s.holding[h].id, approved)
  }

  predicate CanTake(s: State, id: nat) {
    id in s.requests && s.requests[id].outcome.None? && s.requests[id].buffer.Some?
  }

  function Taken(s: State, id: nat): State
    requires id in s.requests
  {
    var r := s.requests[id];
    s.(requests := s.requests[id := r.(outcome := r.buffer, buffer := None)], pending := s.pending - {r.image})
  }

  function Do(s: State, step: Step): State {
    match step
    case Register(id, image) =>
      if id in s.requests then s
      else s.(requests := s.requests[id := Request(image, false, [], None, None)], pending := s.pending[image := id])
    case Store(id) =>
      if id !in s.requests || s.requests[id].stored then s
      else s.(requests := s.requests[id := s.requests[id].(stored := true)], queue := s.queue + [id])
    case Look => Loaded(s)
    case LoadBy(h) => HandlerLoads(s, h)
    case ClearBy(h) => HandlerClears(s, h)
    case SendBy(h, approved) => HandlerSends(s, h, approved)
    case CancelImage(image) =>
      if image !in s.pending then s
      else Sent(s.(pending := s.pending - {image}), s.pending[image], false)
    case Take(id) => if CanTake(s, id) then Taken(s, id) else s
  }

  function Run(s: State, steps: seq<Step>): State {
    if steps == [] then s else Do(Run(s, steps[..|steps| - 1]), steps[|steps| - 1])
  }

  /** A taken outcome is the first decision, and until then the channel holds that decision. */
  predicate FirstCounts(r: Request) {
    match r.outcome
    case Some(b) => r.log != [] && b == r.log[0]
    case None => r.buffer == if r.log == [] then None else Some(r.log[0])
  }

  ghost predicate QueueInv(s: State) {
    && (forall i :: 0 <= i < |s.queue| ==> s.queue[i] in s.requests && s.requests[s.queue[i]].stored)
    && (forall i, j :: 0 <= i < j < |s.queue| ==> s.queue[i] != s.queue[j])
    && (forall id :: id in s.requests ==> FirstCounts(s.requests[id]))
    && (forall h :: h in s.holding ==> s.holding[h].id in s.requests && s.requests[s.holding[h].id].stored)
  }

  /** Only requests with a decision in their channel are skipped. */
  lemma {:induction false} SkippedAreResolved(s: State, queue: seq<nat>)
    ensures var rest := SkipResolved(s, queue);
            && |rest| <= |queue| && rest == queue[|queue| - |rest|..]
            && (forall i :: 0 <= i < |queue| - |rest| ==> Resolved(s, queue[i]))
            && (rest != [] ==> !Resolved(s, rest[0]))
  {
    if queue != [] && Resolved(s, queue[0]) {
      SkippedAreResolved(s, queue[1..]);
      var rest := SkipResolved(s, queue[1..]);
      forall i | 0 <= i < |queue| - |rest| ensures Resolved(s, queue[i]) {
        if i > 0 { assert queue[i] == queue[1..][i - 1]; }
      }
    }
  }

  lemma LookKeepsQueueInv(s: State)
    requires QueueInv(s)
    ensures QueueInv(Loaded(s))
    ensures Loaded(s).queue != [] ==> Loaded(s).queue[0] in s.queue
  {
    SkippedAreResolved(s, s.queue);
    var rest := SkipResolved(s, s.queue);
    assert forall i :: 0 <= i < |rest| ==> rest[i] == s.queue[|s.queue| - |rest| + i];
  }

  lemma ClearKeepsQueueInv(s: State, h: nat)
    requires QueueInv(s)
    ensures QueueInv(HandlerClears(s, h))
  {
  }

  lemma SendKeepsQueueInv(s: State, id: nat, decision: bool)
    requires QueueInv(s)
    ensures QueueInv(Sent(s, id, decision))
  {
  }

  lemma StoreKeepsQueueInv(s: State, id: nat)
    requires QueueInv(s)
    ensures QueueInv(Do(s, Store(id)))
  {
    if id in s.requests && !s.requests[id].stored {
      assert id !in s.queue;
      assert Do(s, Store(id)).queue == s.queue + [id];
    }
  }

  lemma StepKeepsQueueInv(s: State, step: Step)
    requires QueueInv(s)
    ensures QueueInv(Do(s, step))
  {
    match step {
      case Look => LookKeepsQueueInv(s);
      case LoadBy(h) => LookKeepsQueueInv(s);
      case ClearBy(h) => ClearKeepsQueueInv(s, h);
      case SendBy(h, approved) =>
        if h in s.holding { SendKeepsQueueInv(s.(holding := s.holding - {h}), s.holding[h].id, approved); }
      case CancelImage(image) =>
        if image in s.pending { SendKeepsQueueInv(s.(pending := s.pending - {image}), s.pending[image], false); }
      case Store(id) => StoreKeepsQueueInv(s, id);
      case _ =>
    }
  }

  lemma {:induction false} EveryRunKeepsQueueInv(steps: seq<Step>)
    ensures QueueInv(Run(INIT, steps))
  {
    if steps != [] {
      EveryRunKeepsQueueInv(steps[..|steps| - 1]);
      StepKeepsQueueInv(Run(INIT, steps[..|steps| - 1]), steps[|steps| - 1]);
    }
  }

  /** MAIN: in every run, whatever handlers, polls and cancels interleave, what a receiver took is the
      first decision that was sent to it. */
  lemma FirstDecisionCounts(steps: seq<Step>, id: nat)
    requires id in Run(INIT, steps).requests
    ensures var r := Run(INIT, steps).requests[id];
            && (r.outcome.Some? ==> r.log != [] && r.outcome.value == r.log[0])
            && (r.outcome.None? ==> r.buffer == if r.log == [] then None else Some(r.log[0]))
  {
    EveryRunKeepsQueueInv(steps);
    assert FirstCounts(Run(INIT, steps).requests[id]);
  }

  /** The front request a poll or a handler gets is still waited for if and only if it has not been
      sent a decision: a receiver that was rejected and has read that looks open again. */
  lemma ServedIsWaitingIffUndecided(steps: seq<Step>)
    requires Loaded(Run(INIT, steps)).queue != []
    ensures var now := Run(INIT, steps);
            var id := Loaded(now).queue[0];
            id in now.requests && (now.requests[id].outcome.None? <==> now.requests[id].log == [])
  {
    EveryRunKeepsQueueInv(steps);
    var now := Run(INIT, steps);
    SkippedAreResolved(now, now.queue);
    LookKeepsQueueInv(now);
    assert FirstCounts(now.requests[Loaded(now).queue[0]]);
  }

  /** A cancelled receiver that has gone is still served as the open front request. */
  lemma DeadRequestIsServed(a: nat)
    ensures var s := Do(Do(Do(Do(INIT, Register(a, "x")), Store(a)), CancelImage("x")), Take(a));
            a in s.requests && s.requests[a].outcome == Some(false) && Loaded(s).queue == [a]
  {
    var s := Do(Do(Do(INIT, Register(a, "x")), Store(a)), CancelImage("x"));
    assert s.requests[a] == Request("x", true, [] + [false], Some(false), None);
  }

  predicate Undecided(s: State, id: nat) {
    id in s.requests && s.requests[id].stored && s.requests[id].log == []
  }

  ghost predicate IsHeld(s: State, id: nat) {
    exists h :: h in s.holding && s.holding[h].id == id
  }

  /** A request nobody has decided, that is neither in the queue nor with a handler. */
  ghost predicate Abandoned(s: State, id: nat) {
    Undecided(s, id) && id !in s.queue && !IsHeld(s, id)
  }

  /** A handler removes the front request, and that is not the one it loaded, nor with another
      handler, nor decided. */
  ghost predicate MisClears(s: State, step: Step, id: nat) {
    && step.ClearBy? && CanClear(s, step.h)
    && s.queue != [] && s.queue[0] == id
    && Undecided(s, id) && !IsHeld(s, id)
  }

  lemma LookAbandonsNobody(s: State, id: nat)
    requires QueueInv(s) && Undecided(s, id)
    ensures id in s.queue <==> id in Loaded(s).queue
  {
    SkippedAreResolved(s, s.queue);
    var rest := SkipResolved(s, s.queue);
    assert FirstCounts(s.requests[id]);
    if id in s.queue {
      var i :| 0 <= i < |s.queue| && s.queue[i] == id;
      assert i >= |s.queue| - |rest|;
      assert rest[i - (|s.queue| - |rest|)] == id;
    }
  }

  lemma HeldAfterLoad(s: State, h: nat, id: nat)
    requires QueueInv(s) && h !in s.holding && Loaded(s).queue != []
    ensures IsHeld(HandlerLoads(s, h), id) <==> IsHeld(s, id) || id == Loaded(s).queue[0]
  {
    var next := HandlerLoads(s, h);
    if IsHeld(s, id) {
      var g :| g in s.holding && s.holding[g].id == id;
      assert g in next.holding && next.holding[g].id == id;
    }
    assert h in next.holding && next.holding[h].id == Loaded(s).queue[0];
  }

  lemma LoadAbandonsNobody(s: State, h: nat, id: nat)
    requires QueueInv(s)
    ensures Abandoned(HandlerLoads(s, h), id) <==> Abandoned(s, id)
  {
    if h !in s.holding && Undecided(s, id) {
      LookAbandonsNobody(s, id);
      if Loaded(s).queue != [] { HeldAfterLoad(s, h, id); }
    }
  }

  lemma ClearAbandonsIff(s: State, h: nat, id: nat)
    requires QueueInv(s)
    ensures Abandoned(HandlerClears(s, h), id) <==> Abandoned(s, id) || MisClears(s, ClearBy(h), id)
  {
    var next := HandlerClears(s, h);
    if IsHeld(s, id) {
      var g :| g in s.holding && s.holding[g].id == id;
      assert g in next.holding && next.holding[g].id == id;
    }
    if IsHeld(next, id) {
      var g :| g in next.holding && next.holding[g].id == id;
      assert g in s.holding && s.holding[g].id == id;
    }
    if CanClear(s, h) && s.queue != [] {
      assert s.queue == [s.queue[0]] + s.queue[1..];
    }
  }

  lemma SendAbandonsNobody(s: State, h: nat, approved: bool, id: nat)
    requires QueueInv(s)
    ensures Abandoned(HandlerSends(s, h, approved), id) <==> Abandoned(s, id)
  {
    var next := HandlerSends(s, h, approved);
    if h in s.holding && s.holding[h].id != id {
      if IsHeld(s, id) {
        var g :| g in s.holding && s.holding[g].id == id;
        assert h in s.holding && s.holding[h].cleared ==> g in next.holding && next.holding[g].id == id;
      }
    }
  }

  /** Only the cancel of its own image ever decides an abandoned request. */
  predicate CancelsIt(s: State, step: Step, id: nat) {
    step.CancelImage? && step.image in s.pending && s.pending[step.image] == id
  }

  /** A step makes a request abandoned exactly if it clears it by mistake. */
  lemma StepAbandonsIff(s: State, step: Step, id: nat)
    requires QueueInv(s)
    ensures Abandoned(Do(s, step), id) <==> (Abandoned(s, id) && !CancelsIt(s, step, id)) || MisClears(s, step, id)
  {
    match step {
      case Register(_, _) =>
      case Store(other) =>
        assert id in s.queue + [other] <==> id in s.queue || id == other;
      case Look => if Undecided(s, id) { LookAbandonsNobody(s, id); }
      case LoadBy(h) => LoadAbandonsNobody(s, h, id);
      case ClearBy(h) => ClearAbandonsIff(s, h, id);
      case SendBy(h, approved) => SendAbandonsNobody(s, h, approved, id);
      case CancelImage(_) =>
      case Take(_) =>
    }
  }

  ghost predicate MisClearsAt(steps: seq<Step>, n: nat, id: nat)
    requires n < |steps|
  {
    MisClears(Run(INIT, steps[..n]), steps[n], id)
  }

  ghost predicate AbandonedAt(steps: seq<Step>, n: nat, id: nat)
    requires n <= |steps|
  {
    Abandoned(Run(INIT, steps[..n]), id)
  }

  lemma AbandonedAtNext(steps: seq<Step>, n: nat, id: nat)
    requires n < |steps|
    ensures QueueInv(Run(INIT, steps[..n]))
    ensures AbandonedAt(steps, n + 1, id)
       <==> (AbandonedAt(steps, n, id) && !CancelsIt(Run(INIT, steps[..n]), steps[n], id)) || MisClearsAt(steps, n, id)
  {
    EveryRunKeepsQueueInv(steps[..n]);
    assert steps[..n + 1][..n] == steps[..n] && steps[..n + 1][n] == steps[n];
    StepAbandonsIff(Run(INIT, steps[..n]), steps[n], id);
  }

  lemma {:induction false} FirstAbandoned(steps: seq<Step>, n: nat, id: nat)
    requires n <= |steps| && AbandonedAt(steps, n, id)
    ensures exists k :: 0 <= k < n && MisClearsAt(steps, k, id)
  {
    assert steps[..0] == [];
    AbandonedAtNext(steps, n - 1, id);
    if !MisClearsAt(steps, n - 1, id) {
      FirstAbandoned(steps, n - 1, id);
    }
  }

  /** MAIN: over every run, a request is at some point undecided, out of the queue and with no
      handler if and only if some handler clears the queue while this request is at its front and
      neither decided nor loaded by anyone. */
  lemma LostIffClearedByMistake(steps: seq<Step>, id: nat)
    ensures (exists n :: 0 <= n <= |steps| && AbandonedAt(steps, n, id))
       <==> (exists n :: 0 <= n < |steps| && MisClearsAt(steps, n, id))
  {
    if n :| 0 <= n <= |steps| && AbandonedAt(steps, n, id) {
      FirstAbandoned(steps, n, id);
    }
    if n :| 0 <= n < |steps| && MisClearsAt(steps, n, id) {
      AbandonedAtNext(steps, n, id);
    }
  }

  /** It stays lost: no later step queues it again, gives it to a handler or decides it, except the
      cancel of its image. */
  lemma {:induction false} AbandonedForGood(steps: seq<Step>, n: nat, m: nat, id: nat)
    requires n <= m <= |steps| && AbandonedAt(steps, n, id)
    requires forall k :: n <= k < m ==> !CancelsIt(Run(INIT, steps[..k]), steps[k], id)
    ensures AbandonedAt(steps, m, id)
    decreases m
  {
    if n < m {
      AbandonedForGood(steps, n, m - 1, id);
      AbandonedAtNext(steps, m - 1, id);
    }
  }

  /** Each handler that clears has loaded in the step just before, as under one lock. */
  ghost predicate ClearsAtOnce(steps: seq<Step>) {
    forall n :: 0 <= n < |steps| && steps[n].ClearBy? && CanClear(Run(INIT, steps[..n]), steps[n].h) ==>
      LoadsBefore(steps, n)
  }

  predicate LoadsBefore(steps: seq<Step>, n: nat)
    requires n < |steps| && steps[n].ClearBy?
  {
    n > 0 && steps[n - 1] == LoadBy(steps[n].h) && steps[n].h !in Run(INIT, steps[..n - 1]).holding
  }

  /** MAIN: if loading and clearing were one step, no request would ever be lost: in every such run a
      stored request that has left the queue was sent a decision, or is with a handler. */
  lemma NoRequestIsLost(steps: seq<Step>, id: nat)
    requires ClearsAtOnce(steps)
    requires id in Run(INIT, steps).requests && Run(INIT, steps).requests[id].stored
    ensures var now := Run(INIT, steps);
            id in now.queue || now.requests[id].log != [] || IsHeld(now, id)
  {
    if Abandoned(Run(INIT, steps), id) {
      assert steps[..|steps|] == steps;
      assert AbandonedAt(steps, |steps|, id);
      LostIffClearedByMistake(steps, id);
      var n :| 0 <= n < |steps| && MisClearsAt(steps, n, id);
      assert LoadsBefore(steps, n);
      LoadedIsNotMisCleared(steps, n, id);
      assert false;
    }
  }

  lemma LoadedIsNotMisCleared(steps: seq<Step>, n: nat, id: nat)
    requires n < |steps| && steps[n].ClearBy? && LoadsBefore(steps, n)
    ensures !MisClearsAt(steps, n, id)
  {
    var s := Run(INIT, steps[..n - 1]);
    assert steps[..n][..n - 1] == steps[..n - 1] && steps[..n][n - 1] == steps[n - 1];
    if HandlerLoads(s, steps[n].h).queue != [] {
      LoadedIsHeld(s, steps[n].h);
    }
  }

  lemma LoadedIsHeld(s: State, h: nat)
    requires h !in s.holding && HandlerLoads(s, h).queue != []
    ensures IsHeld(HandlerLoads(s, h), HandlerLoads(s, h).queue[0])
  {
    var next := HandlerLoads(s, h);
    assert h in next.holding && next.holding[h].id == next.queue[0];
  }

  //
  // Which request a decision reaches.
  //

  predicate IsFront(s: State, id: nat) {
    s.queue != [] && s.queue[0] == id
  }

  /** A handler's clear takes this front request away, or a poll or a load finds a decision in its
      channel and skips it. */
  predicate Displaces(s: State, step: Step, id: nat) {
    || (step.ClearBy? && CanClear(s, step.h))
    || ((step.Look? || (step.LoadBy? && step.h !in s.holding)) && Resolved(s, id))
  }

  lemma SkippingKeepsFrontIff(s: State, id: nat)
    requires QueueInv(s) && IsFront(s, id)
    ensures IsFront(Loaded(s), id) <==> !Resolved(s, id)
    ensures Resolved(s, id) ==> id !in Loaded(s).queue
  {
    SkippedAreResolved(s, s.queue);
    var rest := SkipResolved(s, s.queue);
    if Resolved(s, id) {
      assert forall i :: 0 <= i < |rest| ==> rest[i] == s.queue[|s.queue| - |rest| + i];
      assert |rest| < |s.queue|;
    }
  }

  lemma StepKeepsFrontIff(s: State, step: Step, id: nat)
    requires QueueInv(s) && IsFront(s, id)
    ensures IsFront(Do(s, step), id) <==> !Displaces(s, step, id)
    ensures Displaces(s, step, id) ==> id !in Do(s, step).queue
  {
    if step.Look? || (step.LoadBy? && step.h !in s.holding) {
      SkippingKeepsFrontIff(s, id);
    } else if step.ClearBy? && CanClear(s, step.h) {
      assert s.queue == [id] + s.queue[1..];
    }
  }

  /** A stored request that has left the queue does not come back. */
  lemma StepQueuesNoneAgain(s: State, step: Step, id: nat)
    requires QueueInv(s) && id in s.requests && s.requests[id].stored
    ensures id in Do(s, step).requests && Do(s, step).requests[id].stored
    ensures id !in s.queue ==> id !in Do(s, step).queue
  {
    SkippedAreResolved(s, s.queue);
    var rest := SkipResolved(s, s.queue);
    assert forall i :: 0 <= i < |rest| ==> rest[i] == s.queue[|s.queue| - |rest| + i];
  }

  ghost predicate FrontAt(steps: seq<Step>, n: nat, id: nat)
    requires n <= |steps|
  {
    IsFront(Run(INIT, steps[..n]), id)
  }

  ghost predicate DisplacesAt(steps: seq<Step>, n: nat, id: nat)
    requires n < |steps|
  {
    Displaces(Run(INIT, steps[..n]), steps[n], id)
  }

  ghost predicate GoneAt(steps: seq<Step>, n: nat, id: nat)
    requires n <= |steps|
  {
    var s := Run(INIT, steps[..n]);
    id in s.requests && s.requests[id].stored && id !in s.queue
  }

  lemma FrontAtNext(steps: seq<Step>, n: nat, id: nat)
    requires n < |steps|
    ensures FrontAt(steps, n, id) ==> (FrontAt(steps, n + 1, id) <==> !DisplacesAt(steps, n, id))
    ensures FrontAt(steps, n, id) && DisplacesAt(steps, n, id) ==> GoneAt(steps, n + 1, id)
    ensures GoneAt(steps, n, id) ==> GoneAt(steps, n + 1, id)
  {
    EveryRunKeepsQueueInv(steps[..n]);
    assert steps[..n + 1][..n] == steps[..n] && steps[..n + 1][n] == steps[n];
    var s := Run(INIT, steps[..n]);
    if IsFront(s, id) {
      StepKeepsFrontIff(s, steps[n], id);
    }
    if id in s.requests && s.requests[id].stored {
      StepQueuesNoneAgain(s, steps[n], id);
    }
  }

  lemma {:induction false} FrontUntilDisplaced(steps: seq<Step>, k: nat, n: nat, id: nat)
    requires k <= n <= |steps| && FrontAt(steps, k, id)
    requires forall m :: k <= m < n ==> !DisplacesAt(steps, m, id)
    ensures FrontAt(steps, n, id)
    decreases n
  {
    if k < n {
      FrontUntilDisplaced(steps, k, n - 1, id);
      FrontAtNext(steps, n - 1, id);
    }
  }

  lemma {:induction false} GoneForGood(steps: seq<Step>, m: nat, n: nat, id: nat)
    requires m <= n <= |steps| && GoneAt(steps, m, id)
    ensures GoneAt(steps, n, id)
    decreases n
  {
    if m < n {
      GoneForGood(steps, m, n - 1, id);
      FrontAtNext(steps, n - 1, id);
    }
  }

  lemma {:induction false} GoneOnceDisplaced(steps: seq<Step>, k: nat, m: nat, id: nat)
    requires k <= m < |steps| && FrontAt(steps, k, id) && DisplacesAt(steps, m, id)
    ensures GoneAt(steps, m + 1, id)
    decreases m
  {
    if i: nat :| k <= i < m && DisplacesAt(steps, i, id) {
      GoneOnceDisplaced(steps, k, i, id);
      GoneForGood(steps, i + 1, m + 1, id);
    } else {
      FrontUntilDisplaced(steps, k, m, id);
      FrontAtNext(steps, m, id);
    }
  }

  lemma StaysFrontIff(steps: seq<Step>, k: nat, n: nat, id: nat)
    requires k <= n <= |steps| && FrontAt(steps, k, id)
    ensures FrontAt(steps, n, id) <==> forall m :: k <= m < n ==> !DisplacesAt(steps, m, id)
  {
    if m: nat :| k <= m < n && DisplacesAt(steps, m, id) {
      GoneOnceDisplaced(steps, k, m, id);
      GoneForGood(steps, m + 1, n, id);
    } else {
      FrontUntilDisplaced(steps, k, n, id);
    }
  }

  lemma LoadAt(steps: seq<Step>, n: nat, h: nat, id: nat)
    requires n < |steps| && steps[n] == LoadBy(h) && h !in Run(INIT, steps[..n]).holding
    ensures var now := Run(INIT, steps[..n + 1]);
            (h in now.holding && now.holding[h].id == id) <==> FrontAt(steps, n + 1, id)
  {
    assert steps[..n + 1][..n] == steps[..n] && steps[..n + 1][n] == steps[n];
    LoadHoldsFront(Run(INIT, steps[..n]), h, id);
  }

  lemma LoadHoldsFront(s: State, h: nat, id: nat)
    requires h !in s.holding
    ensures var now := HandlerLoads(s, h);
            h in now.holding && now.holding[h].id == id <==> IsFront(now, id)
  {
  }

  /** MAIN: when a poll at step k shows a request and an idle handler loads at a later step n, the
      handler gets the request that was shown if and only if no handler has cleared in between, and
      no poll or load since, this one included, found a decision in the request's channel. */
  lemma DecisionReachesShownIff(steps: seq<Step>, k: nat, n: nat, h: nat, id: nat)
    requires k < n < |steps| && steps[k] == Look && FrontAt(steps, k + 1, id)
    requires steps[n] == LoadBy(h) && h !in Run(INIT, steps[..n]).holding
    ensures var now := Run(INIT, steps[..n + 1]);
            (h in now.holding && now.holding[h].id == id)
            <==> forall m :: k < m <= n ==> !DisplacesAt(steps, m, id)
  {
    StaysFrontIff(steps, k + 1, n + 1, id);
    LoadAt(steps, n, h, id);
  }

  /** A cancel between the poll and the click: the approval meant for one image reaches another. */
  lemma ApprovalReachesAnother(a: nat, b: nat)
    requires a != b
    ensures var shown := Do(TwoWaiting(a, b), Look);
            IsFront(shown, a)
            && var sent := Do(Do(Do(Do(shown, CancelImage("x")), LoadBy(0)), ClearBy(0)), SendBy(0, true));
            b in sent.requests && sent.requests[b].image == "y" && sent.requests[b].log == [true]
  {
    TwoWaitingIs(a, b);
    var s := TwoWaiting(a, b);
    assert Do(s, Look) == s;
    var canceled := Do(s, CancelImage("x"));
    assert canceled.requests[a].buffer == Some(false) && canceled.requests[b] == s.requests[b];
    assert canceled.queue[1..] == [b];
    assert SkipResolved(canceled, [b]) == [b];
    var loaded := Do(canceled, LoadBy(0));
    assert loaded == canceled.(queue := [b], holding := map[0 := Held(b, false)]);
    var cleared := Do(loaded, ClearBy(0));
    assert cleared.holding[0] == Held(b, true) && cleared.requests == loaded.requests;
    assert [] + [true] == [true];
  }

  function TwoWaiting(a: nat, b: nat): State {
    Do(Do(Do(Do(INIT, Register(a, "x")), Store(a)), Register(b, "y")), Store(b))
  }

  lemma TwoWaitingIs(a: nat, b: nat)
    requires a != b
    ensures TwoWaiting(a, b)
         == State(map[a := Request("x", true, [], None, None), b := Request("y", true, [], None, None)],
                  [a, b], map[], map["x" := a, "y" := b])
  {
  }

  /** One handler is enough: it has loaded the first request, that one is cancelled, a poll drops it,
      and the handler clears the second. */
  lemma CancelAndPollLoseARequest(a: nat, b: nat)
    requires a != b
    ensures Abandoned(Do(Do(Do(Do(TwoWaiting(a, b), LoadBy(0)), CancelImage("x")), Look), ClearBy(0)), b)
  {
    TwoWaitingIs(a, b);
    var s := TwoWaiting(a, b);
    var loaded := Do(s, LoadBy(0));
    assert loaded == s.(holding := map[0 := Held(a, false)]);
    var canceled := Do(loaded, CancelImage("x"));
    assert canceled.requests[a].buffer == Some(false) && canceled.requests[b] == s.requests[b];
    assert canceled.queue[1..] == [b];
    assert SkipResolved(canceled, [b]) == [b];
    assert Do(canceled, Look).queue == [b];
    assert Do(Do(canceled, Look), ClearBy(0)).queue == [];
  }

  /** Two handlers that both load before either clears drop the second request undecided. */
  lemma RacingHandlersLoseARequest(a: nat, b: nat)
    requires a != b
    ensures Abandoned(Do(Do(Do(Do(TwoWaiting(a, b), LoadBy(0)), LoadBy(1)), ClearBy(0)), ClearBy(1)), b)
  {
    TwoWaitingIs(a, b);
    var s := TwoWaiting(a, b);
    var loaded := Do(Do(s, LoadBy(0)), LoadBy(1));
    assert loaded == s.(holding := map[0 := Held(a, false), 1 := Held(a, false)]);
    assert Do(loaded, ClearBy(0)).queue == [b];
    assert Do(Do(loaded, ClearBy(0)), ClearBy(1)).queue == [];
  }

  /** A receiver that has taken nothing yet. */
  predicate Live(s: State, id: nat) {
    id in s.requests && s.requests[id].outcome.None?
  }

  /** The step does not register an image some live request is still waiting for. */
  ghost predicate FreshImage(s: State, step: Step) {
    step.Register? ==> forall id :: id in s.requests && Live(s, id) ==> s.requests[id].image != step.image
  }

  ghost predicate DistinctImages(steps: seq<Step>) {
    forall n :: 0 <= n < |steps| ==> FreshImage(Run(INIT, steps[..n]), steps[n])
  }

  /** Live requests have different images, and an undecided one is registered under its own. */
  ghost predicate PendingInv(s: State) {
    && (forall id, other :: Live(s, id) && Live(s, other) && id != other ==>
          s.requests[id].image != s.requests[other].image)
    && (forall id :: Live(s, id) && s.requests[id].log == [] ==>
          s.requests[id].image in s.pending && s.pending[s.requests[id].image] == id)
    && (forall image :: image in s.pending ==>
          s.pending[image] in s.requests && s.requests[s.pending[image]].image == image)
  }

  lemma CancelKeepsPendingInv(s: State, image: string)
    requires PendingInv(s) && image in s.pending
    ensures PendingInv(Do(s, CancelImage(image)))
  {
    var next := Do(s, CancelImage(image));
    assert forall x :: Live(next, x) <==> Live(s, x);
    assert forall x :: x in s.requests ==> next.requests[x].image == s.requests[x].image;
  }

  lemma RegisterKeepsPendingInv(s: State, id: nat, image: string)
    requires PendingInv(s) && FreshImage(s, Register(id, image))
    ensures PendingInv(Do(s, Register(id, image)))
  {
    var next := Do(s, Register(id, image));
    assert forall x :: x != id ==> (Live(next, x) <==> Live(s, x));
  }

  lemma StoreKeepsPendingInv(s: State, id: nat)
    requires PendingInv(s)
    ensures PendingInv(Do(s, Store(id)))
  {
    var next := Do(s, Store(id));
    assert next.pending == s.pending && next.requests.Keys == s.requests.Keys;
    assert forall x :: x in s.requests ==> next.requests[x].(stored := false) == s.requests[x].(stored := false);
    assert forall x :: Live(next, x) <==> Live(s, x);
  }

  lemma LookKeepsPendingInv(s: State)
    requires PendingInv(s)
    ensures PendingInv(Loaded(s))
  {
    assert forall x :: Live(Loaded(s), x) <==> Live(s, x);
  }

  lemma StepKeepsPendingInv(s: State, step: Step)
    requires PendingInv(s) && QueueInv(s) && FreshImage(s, step)
    ensures PendingInv(Do(s, step))
  {
    match step {
      case Register(id, image) => RegisterKeepsPendingInv(s, id, image);
      case Store(id) => StoreKeepsPendingInv(s, id);
      case Look => LookKeepsPendingInv(s);
      case LoadBy(h) =>
        LookKeepsPendingInv(s);
        HoldingKeepsPendingInv(Loaded(s), Loaded(s).queue, Do(s, step).holding);
      case ClearBy(h) => HoldingKeepsPendingInv(s, Do(s, step).queue, Do(s, step).holding);
      case SendBy(h, approved) =>
        if h in s.holding { DecisionKeepsPendingInv(s, s.holding - {h}, s.holding[h].id, approved); }
      case CancelImage(image) => if image in s.pending { CancelKeepsPendingInv(s, image); }
      case Take(id) => TakeKeepsPendingInv(s, id);
    }
  }

  lemma HoldingKeepsPendingInv(s: State, queue: seq<nat>, holding: map<nat, Held>)
    requires PendingInv(s)
    ensures PendingInv(s.(queue := queue, holding := holding))
  {
    var next := s.(queue := queue, holding := holding);
    assert forall x :: Live(next, x) <==> Live(s, x);
  }

  lemma DecisionKeepsPendingInv(s: State, holding: map<nat, Held>, id: nat, approved: bool)
    requires PendingInv(s)
    ensures PendingInv(Sent(s.(holding := holding), id, approved))
  {
    var sent := Sent(s.(holding := holding), id, approved);
    assert forall x :: Live(sent, x) <==> Live(s, x);
  }

  lemma TakeKeepsPendingInv(s: State, id: nat)
    requires PendingInv(s) && QueueInv(s)
    ensures PendingInv(Do(s, Take(id)))
  {
    var next := Do(s, Take(id));
    if next != s {
      assert FirstCounts(s.requests[id]);
      assert forall x :: Live(next, x) <==> Live(s, x) && x != id;
    }
  }

  lemma {:induction false} EveryRunKeepsPendingInv(steps: seq<Step>)
    requires DistinctImages(steps)
    ensures PendingInv(Run(INIT, steps))
  {
    if steps != [] {
      var before := steps[..|steps| - 1];
      forall n | 0 <= n < |before| ensures FreshImage(Run(INIT, before[..n]), before[n]) {
        assert before[..n] == steps[..n];
      }
      EveryRunKeepsPendingInv(before);
      EveryRunKeepsQueueInv(before);
      StepKeepsPendingInv(Run(INIT, before), steps[|steps| - 1]);
    }
  }

  /** Only requests that are still waited for can be cancelled by name. */
  ghost predicate PendingIsLive(s: State) {
    forall image :: image in s.pending ==> Live(s, s.pending[image]) && s.requests[s.pending[image]].image == image
  }

  lemma StepKeepsPendingLive(s: State, step: Step)
    requires PendingIsLive(s)
    ensures PendingIsLive(Do(s, step))
  {
    match step {
      case Take(id) =>
        if CanTake(s, id) {
          assert forall image :: image in s.pending && image != s.requests[id].image ==> s.pending[image] != id;
        }
      case _ =>
    }
  }

  /** MAIN: in every run, whatever images the receivers wait for, a cancel by name reaches nobody or a
      receiver of that image that has not taken a decision, and the next cancel of the name nobody. */
  lemma {:induction false} CancelReachesOnlyTheWaiting(steps: seq<Step>, image: string)
    ensures var now := Run(INIT, steps);
            && PendingIsLive(now)
            && Do(Do(now, CancelImage(image)), CancelImage(image)) == Do(now, CancelImage(image))
            && (forall id :: id in now.requests && Do(now, CancelImage(image)).requests[id] != now.requests[id] ==>
                  Live(now, id) && now.requests[id].image == image)
  {
    if steps != [] {
      CancelReachesOnlyTheWaiting(steps[..|steps| - 1], image);
      StepKeepsPendingLive(Run(INIT, steps[..|steps| - 1]), steps[|steps| - 1]);
    }
  }

  /** Of two receivers that wait for one image the later one is cancelled, and the earlier one is not. */
  lemma LaterRegistrationIsCancelled(steps: seq<Step>, id: nat, image: string)
    requires id !in Run(INIT, steps).requests
    ensures var now := Run(INIT, steps);
            var canceled := Do(Do(now, Register(id, image)), CancelImage(image));
            && id in canceled.requests && canceled.requests[id].log == [false]
            && forall other :: other in now.requests ==> canceled.requests[other] == now.requests[other]
  {
    assert [] + [false] == [false];
  }

  /** MAIN: while the images of waiting receivers differ, cancelling an image rejects exactly the
      undecided receiver that waits for it, and that rejection is what it will take. */
  lemma CancelRejectsTheWaitingOne(steps: seq<Step>, id: nat)
    requires DistinctImages(steps)
    requires Live(Run(INIT, steps), id) && Run(INIT, steps).requests[id].log == []
    ensures CancelRejects(Run(INIT, steps), id)
  {
    EveryRunKeepsPendingInv(steps);
    EveryRunKeepsQueueInv(steps);
    CancelHitsPending(Run(INIT, steps), id);
  }

  /** Cancelling the image sends this request, and no other, a rejection that it will take. */
  ghost predicate CancelRejects(s: State, id: nat)
    requires id in s.requests
  {
    var next := Do(s, CancelImage(s.requests[id].image));
    && next.requests == s.requests[id := s.requests[id].(log := [false], buffer := Some(false))]
    && Do(next, Take(id)).requests[id].outcome == Some(false)
  }

  lemma CancelHitsPending(s: State, id: nat)
    requires PendingInv(s) && QueueInv(s) && Live(s, id) && s.requests[id].log == []
    ensures CancelRejects(s, id)
  {
    assert FirstCounts(s.requests[id]);
    var image := s.requests[id].image;
    assert s.pending[image] == id;
    assert [] + [false] == [false];
  }
}
