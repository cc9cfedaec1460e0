/** The registry of peers: their addresses, and what the API tells about them. */
module PeerRegistry {
  datatype PeerMeta = PeerMeta(source: string, status: string, arch: string, fingerprint: string, lastSeen: int)

  datatype Registry = Registry(nodes: map<string, string>, metadata: map<string, PeerMeta>)

  const EMPTY := Registry(map[], map[])

  /** Same names on both maps, and no two names at one address. */
  ghost predicate Consistent(r: Registry) {
    && r.nodes.Keys == r.metadata.Keys
    && forall a, b :: a in r.nodes && b in r.nodes && r.nodes[a] == r.nodes[b] ==> a == b
  }

  function Rivals(r: Registry, name: string, address: string): set<string> {
    set n | n in r.nodes && r.nodes[n] == address && n != name
  }

  /** Other names at this address are dropped. */
  function Evicted(r: Registry, name: string, address: string): Registry {
    Registry(r.nodes - Rivals(r, name, address), r.metadata - Rivals(r, name, address))
  }

  /** A discovered peer: a known name keeps its source and architecture. */
  function Added(r: Registry, name: string, address: string, fingerprint: string, now: int): Registry {
    var e := Evicted(r, name, address);
    Registry(e.nodes[name := address],
             e.metadata[name := if name in e.metadata
                                then e.metadata[name].(lastSeen := now, status := "reachable",
                                                         fingerprint := fingerprint)
                                else PeerMeta("mdns", "reachable", "unknown", fingerprint, now)])
  }

  /** A peer added by hand replaces what was known under its name. */
  function AddedCustom(r: Registry, name: string, address: string, source: string, now: int): Registry {
    var e := Evicted(r, name, address);
    Registry(e.nodes[name := address], e.metadata[name := PeerMeta(source, "unverified", "unknown", "", now)])
  }

  function Removed(r: Registry, name: string): Registry {
    Registry(r.nodes - {name}, r.metadata - {name})
  }

  function Discovered(r: Registry): set<string> {
    set n | n in r.metadata && r.metadata[n].source == "mdns"
  }

  function WithoutDiscovered(r: Registry): Registry {
    Registry(r.nodes - Discovered(r), r.metadata - Discovered(r))
  }

  /** The architecture probe and the health check update an entry only if it is still there. */
  function Probed(r: Registry, name: string, arch: string): Registry {
    if name in r.metadata then r.(metadata := r.metadata[name := r.metadata[name].(arch := arch)]) else r
  }

  function Checked(r: Registry, name: string, status: string): Registry {
    if name in r.metadata then r.(metadata := r.metadata[name := r.metadata[name].(status := status)]) else r
  }

  datatype Node = Node(address: string, meta: PeerMeta)

  /** What the API lists: a peer without metadata would be shown as freshly discovered. */
  function Detailed(r: Registry, now: int): map<string, Node> {
    map n | n in r.nodes ::
      Node(r.nodes[n], if n in r.metadata then r.metadata[n] else PeerMeta("mdns", "reachable", "unknown", "", now))
  }

  class Peers {
    var nodes: map<string, string>
    var metadata: map<string, PeerMeta>

    function State(): Registry
      reads this
    {
      Registry(nodes, metadata)
    }

    constructor ()
      ensures State() == EMPTY
    {
      nodes, metadata := map[], map[];
    }

    method EvictRivals(name: string, address: string)
      modifies this
      ensures State() == Evicted(old(State()), name, address)
    {
      ghost var gone: set<string> := {};
      var todo := nodes.Keys;
      while todo != {}
        invariant todo <= old(nodes).Keys
        invariant gone == Rivals(old(State()), name, address) - todo
        invariant nodes == old(nodes) - gone && metadata == old(metadata) - gone
        decreases todo
      {
        var n :| n in todo;
        if nodes[n] == address && n != name {
          nodes := nodes - {n};
          metadata := metadata - {n};
          gone := gone + {n};
        }
        todo := todo - {n};
      }
    }

    method AddPeer(name: string, address: string, fingerprint: string, now: int)
      modifies this
      ensures State() == Added(old(State()), name, address, fingerprint, now)
    {
      EvictRivals(name, address);
      nodes := nodes[name := address];
      if name !in metadata {
        metadata := metadata[name := PeerMeta("mdns", "reachable", "unknown", fingerprint, now)];
      } else {
        var seen := metadata[name].(lastSeen := now, status := "reachable", fingerprint := fingerprint);
        metadata := metadata[name := seen];
      }
    }

    method AddCustomPeer(name: string, address: string, source: string, now: int)
      modifies this
      ensures State() == AddedCustom(old(State()), name, address, source, now)
    {
      EvictRivals(name, address);
      nodes := nodes[name := address];
      metadata := metadata[name := PeerMeta(source, "unverified", "unknown", "", now)];
    }

    method RemovePeer(name: string)
      modifies this
      ensures State() == Removed(old(State()), name)
    {
      nodes := nodes - {name};
      metadata := metadata - {name};
    }

    method ClearMDNSPeers()
      modifies this
      ensures State() == WithoutDiscovered(old(State()))
    {
      ghost var gone: set<string> := {};
      var todo := metadata.Keys;
      while todo != {}
        invariant todo <= old(metadata).Keys
        invariant gone == Discovered(old(State())) - todo
        invariant nodes == old(nodes) - gone && metadata == old(metadata) - gone
        decreases todo
      {
        var n :| n in todo;
        if metadata[n].source == "mdns" {
          nodes := nodes - {n};
          metadata := metadata - {n};
          gone := gone + {n};
        }
        todo := todo - {n};
      }
    }

    method GetDetailedPeers(now: int) returns (copy: map<string, Node>)
      ensures copy == Detailed(State(), now)
    {
      copy := map[];
      var todo := nodes.Keys;
      while todo != {}
        invariant todo <= nodes.Keys
        invariant copy.Keys == nodes.Keys - todo
        invariant forall n :: n in copy ==> copy[n] == Detailed(State(), now)[n]
        decreases todo
      {
        var n :| n in todo;
        var meta := if n in metadata then metadata[n] else PeerMeta("mdns", "reachable", "unknown", "", now);
        copy := copy[n := Node(nodes[n], meta)];
        todo := todo - {n};
      }
    }
  }

  datatype Op =
    | Add(name: string, address: string, fingerprint: string, now: int)
    | AddCustom(name: string, address: string, source: string, now: int)
    | Remove(name: string)
    | ClearMDNS
    | Probe(name: string, arch: string)
    | Check(name: string, status: string)

  function Do(r: Registry, op: Op): Registry {
    match op
    case Add(name, address, fingerprint, now) => Added(r, name, address, fingerprint, now)
    case AddCustom(name, address, source, now) => AddedCustom(r, name, address, source, now)
    case Remove(name) => Removed(r, name)
    case ClearMDNS => WithoutDiscovered(r)
    case Probe(name, arch) => Probed(r, name, arch)
    case Check(name, status) => Checked(r, name, status)
  }

  function Run(r: Registry, ops: seq<Op>): Registry {
    if ops == [] then r else Do(Run(r, ops[..|ops| - 1]), ops[|ops| - 1])
  }

  lemma AddingKeepsConsistent(r: Registry, name: string, address: string, meta: PeerMeta)
    requires Consistent(r)
    ensures var e := Evicted(r, name, address);
            Consistent(Registry(e.nodes[name := address], e.metadata[name := meta]))
  {
    var e := Evicted(r, name, address);
    assert forall n :: n in e.nodes && n != name ==> n in r.nodes && r.nodes[n] != address;
  }

  lemma StepKeepsConsistent(r: Registry, op: Op)
    requires Consistent(r)
    ensures Consistent(Do(r, op))
  {
    match op {
      case Add(name, address, fingerprint, now) =>
        AddingKeepsConsistent(r, name, address, Added(r, name, address, fingerprint, now).metadata[name]);
      case AddCustom(name, address, source, now) =>
        AddingKeepsConsistent(r, name, address, PeerMeta(source, "unverified", "unknown", "", now));
      case _ =>
    }
  }

  /** MAIN: over every sequence of operations both maps name the same peers, no two names share an
      address, and the API never has to make up metadata. */
  lemma {:induction false} EveryRunIsConsistent(ops: seq<Op>, now: int)
    ensures var r := Run(EMPTY, ops);
            && Consistent(r)
            && forall n :: n in r.nodes ==> n in r.metadata && Detailed(r, now)[n] == Node(r.nodes[n], r.metadata[n])
  {
    if ops != [] {
      EveryRunIsConsistent(ops[..|ops| - 1], now);
      StepKeepsConsistent(Run(EMPTY, ops[..|ops| - 1]), ops[|ops| - 1]);
    }
  }

  /** What the API lists after these operations. */
  function Listed(ops: seq<Op>, now: int): map<string, Node> {
    Detailed(Run(EMPTY, ops), now)
  }

  lemma RunOneMore(ops: seq<Op>, op: Op)
    ensures Run(EMPTY, ops + [op]) == Do(Run(EMPTY, ops), op)
  {
    assert (ops + [op])[..|ops|] == ops;
  }

  /** Exactly the names at other addresses are listed as before. */
  ghost predicate OthersStayBut(before: map<string, Node>, after: map<string, Node>, name: string, address: string) {
    forall n :: n != name ==> (n in after <==> n in before && before[n].address != address)
                              && (n in after ==> after[n] == before[n])
  }

  ghost predicate OthersStay(before: map<string, Node>, after: map<string, Node>, name: string) {
    forall n :: n != name ==> (n in after <==> n in before) && (n in after ==> after[n] == before[n])
  }

  /** MAIN: after any operations, a peer that is seen is listed at its address, with its fingerprint;
      a new one as discovered, a known one with the source and architecture it had. */
  lemma AddedIsListed(ops: seq<Op>, name: string, address: string, fingerprint: string, seen: int, now: int)
    ensures var before, after := Listed(ops, now), Listed(ops + [Add(name, address, fingerprint, seen)], now);
            && OthersStayBut(before, after, name, address)
            && name in after && after[name].address == address
            && after[name].meta == PeerMeta(if name in before then before[name].meta.source else "mdns", "reachable",
                                            if name in before then before[name].meta.arch else "unknown",
                                            fingerprint, seen)
  {
    RunOneMore(ops, Add(name, address, fingerprint, seen));
    EveryRunIsConsistent(ops, now);
    EveryRunIsConsistent(ops + [Add(name, address, fingerprint, seen)], now);
  }

  /** MAIN: a peer added by hand is listed at its address, as unverified, and with its source. */
  lemma AddedCustomIsListed(ops: seq<Op>, name: string, address: string, source: string, added: int, now: int)
    ensures var before, after := Listed(ops, now), Listed(ops + [AddCustom(name, address, source, added)], now);
            && OthersStayBut(before, after, name, address)
            && name in after
            && after[name] == Node(address, PeerMeta(source, "unverified", "unknown", "", added))
  {
    RunOneMore(ops, AddCustom(name, address, source, added));
    EveryRunIsConsistent(ops, now);
  }

  /** A removed name is gone, a probed or checked one changes in that respect, and no other does. */
  lemma OthersAreLeftAlone(ops: seq<Op>, op: Op, now: int)
    requires op.Remove? || op.Probe? || op.Check?
    ensures var before, after := Listed(ops, now), Listed(ops + [op], now);
            && OthersStay(before, after, op.name)
            && (op.Remove? ==> op.name !in after)
            && (!op.Remove? ==> (op.name in after <==> op.name in before))
            && (op.Probe? && op.name in after ==>
                  after[op.name] == before[op.name].(meta := before[op.name].meta.(arch := op.arch)))
            && (op.Check? && op.name in after ==>
                  after[op.name] == before[op.name].(meta := before[op.name].meta.(status := op.status)))
  {
    RunOneMore(ops, op);
    EveryRunIsConsistent(ops, now);
  }

  ghost predicate IsAt(r: Registry, name: string, address: string) {
    name in r.nodes && r.nodes[name] == address
  }

  /** The operation moves the name, gives its address to another one, removes it or clears it. */
  ghost predicate Moves(r: Registry, op: Op, name: string, address: string) {
    match op
    case Add(n, a, _, _) => (n == name) != (a == address)
    case AddCustom(n, a, _, _) => (n == name) != (a == address)
    case Remove(n) => n == name
    case ClearMDNS => name in r.metadata && r.metadata[name].source == "mdns"
    case _ => false
  }

  lemma StepMovesIff(r: Registry, op: Op, name: string, address: string)
    requires Consistent(r) && IsAt(r, name, address)
    ensures IsAt(Do(r, op), name, address) <==> !Moves(r, op, name, address)
  {
  }

  ghost predicate IsAtAfter(ops: seq<Op>, n: nat, name: string, address: string)
    requires n <= |ops|
  {
    IsAt(Run(EMPTY, ops[..n]), name, address)
  }

  ghost predicate MovesAt(ops: seq<Op>, n: nat, name: string, address: string)
    requires n < |ops|
  {
    Moves(Run(EMPTY, ops[..n]), ops[n], name, address)
  }

  lemma IsAtNext(ops: seq<Op>, n: nat, name: string, address: string)
    requires n < |ops| && IsAtAfter(ops, n, name, address)
    ensures IsAtAfter(ops, n + 1, name, address) <==> !MovesAt(ops, n, name, address)
  {
    EveryRunIsConsistent(ops[..n], 0);
    assert ops[..n + 1] == ops[..n] + [ops[n]];
    RunOneMore(ops[..n], ops[n]);
    StepMovesIff(Run(EMPTY, ops[..n]), ops[n], name, address);
  }

  lemma {:induction false} StaysWhileUnmoved(ops: seq<Op>, k: nat, n: nat, name: string, address: string)
    requires k <= n <= |ops| && IsAtAfter(ops, k, name, address)
    requires forall m :: k <= m < n ==> !MovesAt(ops, m, name, address)
    ensures IsAtAfter(ops, n, name, address)
    decreases n
  {
    if k < n {
      StaysWhileUnmoved(ops, k, n - 1, name, address);
      IsAtNext(ops, n - 1, name, address);
    }
  }

  /** MAIN: from the moment a name is at an address it stays there, through all operations, if and only
      if none moves it, takes its address, removes it, or clears it while it counts as discovered. */
  lemma StaysUntilMoved(ops: seq<Op>, k: nat, n: nat, name: string, address: string)
    requires k <= n <= |ops| && IsAtAfter(ops, k, name, address)
    ensures (forall m :: k <= m <= n ==> IsAtAfter(ops, m, name, address))
       <==> (forall m :: k <= m < n ==> !MovesAt(ops, m, name, address))
  {
    if forall m :: k <= m <= n ==> IsAtAfter(ops, m, name, address) {
      forall m | k <= m < n ensures !MovesAt(ops, m, name, address) {
        IsAtNext(ops, m, name, address);
      }
    }
    if forall m :: k <= m < n ==> !MovesAt(ops, m, name, address) {
      forall m | k <= m <= n ensures IsAtAfter(ops, m, name, address) {
        StaysWhileUnmoved(ops, k, m, name, address);
      }
    }
  }

  /** MAIN: clearing keeps exactly the peers that were not discovered, as they were. A peer added
      by hand and later seen on the network is one of them. */
  lemma ClearKeepsExactlyTheOthers(ops: seq<Op>)
    ensures var r, cleared := Run(EMPTY, ops), Run(EMPTY, ops + [ClearMDNS]);
            && Consistent(r) && Consistent(cleared)
            && (forall n :: n in cleared.nodes <==> n in r.nodes && r.metadata[n].source != "mdns")
            && (forall n :: n in cleared.nodes ==>
                  cleared.nodes[n] == r.nodes[n] && cleared.metadata[n] == r.metadata[n])
  {
    EveryRunIsConsistent(ops, 0);
    EveryRunIsConsistent(ops + [ClearMDNS], 0);
    assert (ops + [ClearMDNS])[..|ops|] == ops;
  }

  /** Seeing a peer on the network never changes where it came from. */
  lemma SeenCustomPeerSurvivesClear(r: Registry, name: string, address: string, source: string, fingerprint: string,
                                    now: int, later: int)
    requires source != "mdns"
    ensures var seen := Added(AddedCustom(r, name, address, source, now), name, address, fingerprint, later);
            name in WithoutDiscovered(seen).nodes && WithoutDiscovered(seen).metadata[name] == seen.metadata[name]
  {
    var custom := AddedCustom(r, name, address, source, now);
    assert name in Evicted(custom, name, address).metadata;
  }
}
