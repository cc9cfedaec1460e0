/** Incoming requests wait in a queue for a decision, and each receiver takes the first one. */
module Approvals {
  import opened Wrappers

  /** A response channel of capacity one. */
  class ResponseChan {
    var buffer: Option<bool>

    constructor ()
      ensures buffer == None
    {
      buffer := None;
    }

    /** The non-blocking send: a full channel keeps what it holds. */
    method TrySend(decision: bool)
      modifies this
      ensures buffer == if old(buffer).Some? then old(buffer) else Some(decision)
    {
      if buffer.None? {
        buffer := Some(decision);
      }
    }
  }

  datatype ApprovalRequest = ApprovalRequest(image: string, author: string, response: ResponseChan)

  function Channels(queue: seq<ApprovalRequest>): set<ResponseChan> {
    set r | r in queue :: r.response
  }

  /** The queue without its leading requests whose channel already holds a decision. */
  function SkipResolved(queue: seq<ApprovalRequest>): seq<ApprovalRequest>
    reads Channels(queue)
  {
    if queue == [] then []
    else
      assert queue[0].response in Channels(queue);
      assert Channels(queue[1..]) <= Channels(queue);
      if queue[0].response.buffer.None? then queue else SkipResolved(queue[1..])
  }

  /** The first k requests have a decision in their channel, and the next one, if any, has none. */
  ghost predicate IsFirstOpen(queue: seq<ApprovalRequest>, k: nat)
    reads Channels(queue)
  {
    && k <= |queue|
    && (forall i :: 0 <= i < k ==> queue[i].response in Channels(queue) && queue[i].response.buffer.Some?)
    && (k < |queue| ==> queue[k].response in Channels(queue) && queue[k].response.buffer.None?)
  }

  lemma SkipsToFirstOpen(queue: seq<ApprovalRequest>) returns (k: nat)
    ensures IsFirstOpen(queue, k) && SkipResolved(queue) == queue[k..]
  {
    if queue == [] || queue[0].response.buffer.None? {
      k := 0;
    } else {
      var j := SkipsToFirstOpen(queue[1..]);
      k := j + 1;
      forall i | 0 <= i < k ensures queue[i].response.buffer.Some? {
        assert i > 0 ==> queue[i] == queue[1..][i - 1];
      }
    }
  }

  class PendingApprovalStore {
    var queue: seq<ApprovalRequest>

    constructor ()
      ensures queue == []
    {
      queue := [];
    }

    method Store(r: ApprovalRequest)
      modifies this
      ensures queue == old(queue) + [r]
    {
      queue := queue + [r];
    }

    method Load() returns (r: Option<ApprovalRequest>)
      modifies this
      ensures queue == old(SkipResolved(queue))
      ensures exists k: nat :: old(IsFirstOpen(queue, k)) && queue == old(queue)[k..]
      ensures r == if queue == [] then None else Some(queue[0])
      ensures r.Some? ==> r.value.response.buffer.None?
    {
      ghost var k := SkipsToFirstOpen(queue);
      while |queue| > 0
        invariant SkipResolved(queue) == old(SkipResolved(queue))
        decreases |queue|
      {
        var req := queue[0];
        if req.response.buffer.Some? {
          ghost var rest := queue[1..];
          assert SkipResolved(queue) == SkipResolved(rest);
          assert forall c :: c in Channels(rest) ==> c as object != this;
          label before:
          queue := queue[1..];
          assert SkipResolved(rest) == old@before(SkipResolved(rest));
        } else {
          return Some(req);
        }
      }
      return None;
    }

    method Clear()
      modifies this
      ensures queue == if old(queue) == [] then [] else old(queue)[1..]
    {
      if |queue| > 0 {
        queue := queue[1..];
      }
    }
  }

  /** Approve or reject the front request; false when there is none. */
  method SendDecision(store: PendingApprovalStore, approved: bool) returns (ok: bool)
    modifies store, Channels(store.queue)
    ensures var waiting := old(SkipResolved(store.queue));
            && (ok <==> waiting != [])
            && (ok ==>
                  && store.queue == waiting[1..]
                  && waiting[0].response.buffer == Some(approved)
                  && forall c :: c in old(Channels(store.queue)) && c != waiting[0].response ==>
                       c.buffer == old(c.buffer))
            && (!ok ==> store.queue == [] && forall c :: c in old(Channels(store.queue)) ==> c.buffer == old(c.buffer))
    ensures exists k: nat :: old(IsFirstOpen(store.queue, k))
                             && (ok <==> k < |old(store.queue)|)
                             && store.queue == old(store.queue)[(if ok then k + 1 else k)..]
                             && (ok ==> old(store.queue)[k].response.buffer == Some(approved))
  {
    SkipResolvedIsSuffix(store.queue);
    ghost var k := SkipsToFirstOpen(store.queue);
    var req := store.Load();
    if req.None? {
      return false;
    }
    store.Clear();
    req.value.response.TrySend(approved);
    return true;
  }

  lemma SkipResolvedIsSuffix(queue: seq<ApprovalRequest>)
    ensures forall r :: r in SkipResolved(queue) ==> r in queue
    ensures Channels(SkipResolved(queue)) <= Channels(queue)
  {
    if queue != [] && queue[0].response.buffer.Some? {
      SkipResolvedIsSuffix(queue[1..]);
    }
  }

  datatype PendingApproval = PendingApproval(response: ResponseChan, peer: string)

  /** The registered approvals of the manager, by image name. */
  class ApprovalRegistry {
    var pending: map<string, PendingApproval>

    constructor ()
      ensures pending == map[]
    {
      pending := map[];
    }

    method RegisterApproval(image: string, peer: string, response: ResponseChan)
      modifies this
      ensures pending == old(pending)[image := PendingApproval(response, peer)]
    {
      pending := pending[image := PendingApproval(response, peer)];
    }

    method UnregisterApproval(image: string)
      modifies this
      ensures pending == old(pending) - {image}
    {
      pending := pending - {image};
    }

    method CancelApproval(image: string) returns (peer: Option<string>)
      modifies this, if image in pending then {pending[image].response} else {}
      ensures pending == old(pending) - {image}
      ensures image !in old(pending) ==> peer == None
      ensures image in old(pending) ==>
                var p := old(pending)[image];
                && peer == Some(p.peer)
                && p.response.buffer == if old(p.response.buffer).Some? then old(p.response.buffer) else Some(false)
    {
      if image !in pending {
        return None;
      }
      var p := pending[image];
      pending := pending - {image};
      p.response.TrySend(false);
      return Some(p.peer);
    }
  }
}
