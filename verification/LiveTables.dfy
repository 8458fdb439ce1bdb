/** The unified live-connection table: marking, touching and dropping peers, the transport chooser
    and the heartbeat's sweep. */
module LiveTables {
  import opened Base

  datatype TransportKind = Ws | Udp | Punch | WebRtc

  datatype P2pConn = P2pConn(kind: TransportKind, lastSeen: nat, addr: Option<Addr>)

  type Conns = map<Node, P2pConn>

  datatype CoreEvent =
    | PeerConnected(node: Node, transport: TransportKind)
    | PeerDisconnected(node: Node)
    | WsConnected(node: Node)
    | WsDisconnected(node: Node)

  /** Seconds without a sign of life after which the heartbeat evicts a link. */
  const TIMEOUT: nat := 15

  // ---------------------------------------------------------------- the table as a value

  /** First sight creates the entry; later ones refresh it and never change its kind. */
  function Mark(m: Conns, node: Node, kind: TransportKind, addr: Option<Addr>, now: nat): Conns {
    if node in m then m[node := P2pConn(m[node].kind, now, if addr.Some? then addr else m[node].addr)]
    else m[node := P2pConn(kind, now, addr)]
  }

  function Touch(m: Conns, node: Node, now: nat): Conns {
    if node in m then m[node := m[node].(lastSeen := now)] else m
  }

  function SaturatingSub(a: nat, b: nat): nat {
    if a > b then a - b else 0
  }

  predicate Stale(c: P2pConn, now: nat) {
    !c.kind.Ws? && SaturatingSub(now, c.lastSeen) > TIMEOUT
  }

  /** What is left after the heartbeat has gone over a snapshot of the table. */
  function Survivors(m: Conns, now: nat): (s: Conns)
    ensures s.Keys <= m.Keys
  {
    map n | n in m && !Stale(m[n], now) :: m[n]
  }

  /** The table once the heartbeat has gone over `order`. */
  function Sweep(m: Conns, order: seq<Node>, now: nat): Conns
    requires forall n :: n in order ==> n in m
  {
    if order == [] then m
    else
      var last := order[|order| - 1];
      var rest := Sweep(m, order[..|order| - 1], now);
      if Stale(m[last], now) then rest - {last} else rest
  }

  lemma {:induction false} SweepLeaves(m: Conns, order: seq<Node>, now: nat)
    requires forall n :: n in order ==> n in m
    ensures Sweep(m, order, now).Keys <= m.Keys
    ensures forall n :: n in m ==> (n in Sweep(m, order, now) <==> !(n in order && Stale(m[n], now)))
    ensures forall n :: n in Sweep(m, order, now) ==> n in m && Sweep(m, order, now)[n] == m[n]
    decreases |order|
  {
    if order != [] {
      SweepLeaves(m, order[..|order| - 1], now);
    }
  }

  /** Whatever order the table is gone over in, exactly the links that are not stale remain. */
  lemma SweepIsOrderless(m: Conns, order: seq<Node>, now: nat)
    requires Enumerates(order, m)
    ensures Sweep(m, order, now) == Survivors(m, now)
  {
    SweepLeaves(m, order, now);
  }

  /** The peers of `order` the heartbeat drops, in order. */
  function Evicted(m: Conns, order: seq<Node>, now: nat): seq<Node>
    requires forall n :: n in order ==> n in m
  {
    if order == [] then []
    else
      Evicted(m, order[..|order| - 1], now) +
      (if Stale(m[order[|order| - 1]], now) then [order[|order| - 1]] else [])
  }

  /** The peers of `order` it pings. */
  function Pinged(m: Conns, order: seq<Node>, now: nat): seq<Node>
    requires forall n :: n in order ==> n in m
  {
    if order == [] then []
    else
      var c := m[order[|order| - 1]];
      Pinged(m, order[..|order| - 1], now) +
      (if !c.kind.Ws? && !Stale(c, now) then [order[|order| - 1]] else [])
  }

  function Disconnections(nodes: seq<Node>): seq<CoreEvent> {
    seq(|nodes|, i requires 0 <= i < |nodes| => PeerDisconnected(nodes[i]))
  }

  lemma DisconnectionsOf(nodes: seq<Node>)
    ensures forall n :: PeerDisconnected(n) in Disconnections(nodes) <==> n in nodes
  {
    forall n | n in nodes
      ensures PeerDisconnected(n) in Disconnections(nodes)
    {
      var i :| 0 <= i < |nodes| && nodes[i] == n;
      assert Disconnections(nodes)[i] == PeerDisconnected(n);
    }
  }

  /** What a tick at `now` makes of the table `m`: the table it leaves, the peers it pings and the events
      it emits. */
  predicate Swept(m: Conns, left: Conns, pings: seq<Node>, events: seq<CoreEvent>, now: nat) {
    left.Keys <= m.Keys &&
    forall n :: n in m ==>
      (n in left <==> m[n].kind.Ws? || now <= m[n].lastSeen + 15) &&
      (n in left ==> left[n] == m[n]) &&
      (n in pings <==> !m[n].kind.Ws? && now <= m[n].lastSeen + 15) &&
      (PeerDisconnected(n) in events <==> !m[n].kind.Ws? && m[n].lastSeen + 15 < now)
  }

  lemma SweptBy(m: Conns, order: seq<Node>, now: nat)
    requires Enumerates(order, m)
    ensures Swept(m, Survivors(m, now), Pinged(m, order, now), Disconnections(Evicted(m, order, now)), now)
  {
    TickSplitsTable(m, order, now);
    DisconnectionsOf(Evicted(m, order, now));
  }

  /** An enumeration of the table, in whatever order the hash map yields it. */
  predicate Enumerates(order: seq<Node>, m: Conns) {
    (forall n :: n in order ==> n in m) && (forall n :: n in m ==> n in order) &&
    forall i, j :: 0 <= i < j < |order| ==> order[i] != order[j]
  }

  /** One tick splits the table: every stale link is dropped, every other connectionless one is
      pinged, each exactly once, and WebSocket links are left alone. */
  lemma {:induction false} TickSplitsTable(m: Conns, order: seq<Node>, now: nat)
    requires forall n :: n in order ==> n in m
    requires forall i, j :: 0 <= i < j < |order| ==> order[i] != order[j]
    ensures forall n :: n in Evicted(m, order, now) <==> n in order && !m[n].kind.Ws? && m[n].lastSeen + 15 < now
    ensures forall n :: n in Pinged(m, order, now) <==> n in order && !m[n].kind.Ws? && now <= m[n].lastSeen + 15
    ensures forall i, j :: 0 <= i < j < |Evicted(m, order, now)| ==>
              Evicted(m, order, now)[i] != Evicted(m, order, now)[j]
    ensures forall i, j :: 0 <= i < j < |Pinged(m, order, now)| ==>
              Pinged(m, order, now)[i] != Pinged(m, order, now)[j]
    decreases |order|
  {
    if order != [] {
      var init, last := order[..|order| - 1], order[|order| - 1];
      TickSplitsTable(m, init, now);
      assert last !in init;
    }
  }

  lemma SweepNext(m: Conns, order: seq<Node>, k: nat, now: nat)
    requires Enumerates(order, m) && k < |order|
    ensures var done, more, node := order[..k], order[..k + 1], order[k];
            node in Sweep(m, done, now) &&
            Sweep(m, more, now) == (if Stale(m[node], now) then Sweep(m, done, now) - {node} else Sweep(m, done, now)) &&
            Disconnections(Evicted(m, more, now)) ==
              Disconnections(Evicted(m, done, now)) + (if Stale(m[node], now) then [PeerDisconnected(node)] else []) &&
            Pinged(m, more, now) ==
              Pinged(m, done, now) + (if !m[node].kind.Ws? && !Stale(m[node], now) then [node] else [])
  {
    assert order[..k + 1][..k] == order[..k];
    assert order[k] !in order[..k];
    SweepLeaves(m, order[..k], now);
  }

  // ---------------------------------------------------------------- the table in place

  class LiveRegistry {
    var wsConns: map<Node, nat>
    var p2pConns: Conns
    /** Everything emitted so far. */
    var sink: seq<CoreEvent>

    /** `mark_live`: the entry is there and fresh; an old one keeps its kind, and its address unless a
        new one is known; no other entry changes. */
    method MarkLive(node: Node, kind: TransportKind, addr: Option<Addr>, now: nat)
      modifies this`p2pConns, this`sink
      ensures p2pConns == Mark(old(p2pConns), node, kind, addr, now)
      ensures p2pConns.Keys == old(p2pConns).Keys + {node} && p2pConns[node].lastSeen == now
      ensures node in old(p2pConns) ==>
                p2pConns[node].kind == old(p2pConns)[node].kind &&
                p2pConns[node].addr == if addr.Some? then addr else old(p2pConns)[node].addr
      ensures node !in old(p2pConns) ==> p2pConns[node].kind == kind && p2pConns[node].addr == addr
      ensures forall n :: n in old(p2pConns) && n != node ==> p2pConns[n] == old(p2pConns)[n]
      ensures sink == old(sink) + (if node in old(p2pConns) then [] else [PeerConnected(node, kind)])
    {
      var newly := node !in p2pConns;
      if newly {
        p2pConns := p2pConns[node := P2pConn(kind, now, addr)];
      } else {
        var c := p2pConns[node];
        p2pConns := p2pConns[node := c.(lastSeen := now)];
        if addr.Some? {
          p2pConns := p2pConns[node := p2pConns[node].(addr := addr)];
        }
      }
      if newly {
        sink := sink + [PeerConnected(node, kind)];
      }
    }

    /** `touch_live`: never creates a link and changes no other; the link touched keeps its kind and
        address, and the heartbeat leaves it alone for the next fifteen seconds. */
    method TouchLive(node: Node, now: nat)
      modifies this`p2pConns
      ensures p2pConns == Touch(old(p2pConns), node, now)
      ensures p2pConns.Keys == old(p2pConns).Keys
      ensures forall n :: n in p2pConns && n != node ==> p2pConns[n] == old(p2pConns)[n]
      ensures node in p2pConns ==>
                p2pConns[node].kind == old(p2pConns)[node].kind && p2pConns[node].addr == old(p2pConns)[node].addr &&
                forall t :: now <= t <= now + TIMEOUT ==> node in Survivors(p2pConns, t)
    {
      if node in p2pConns {
        p2pConns := p2pConns[node := p2pConns[node].(lastSeen := now)];
      }
    }

    /** `drop_live`. */
    method DropLive(node: Node)
      modifies this`p2pConns, this`sink
      ensures p2pConns == old(p2pConns) - {node}
      ensures sink == old(sink) + (if node in old(p2pConns) then [PeerDisconnected(node)] else [])
    {
      var removed := node in p2pConns;
      p2pConns := p2pConns - {node};
      if removed {
        sink := sink + [PeerDisconnected(node)];
      }
    }

    /** `best_proto`: a registered slot always wins over the directed setting. */
    method BestProto(directedIsTcp: bool, node: Node) returns (proto: string)
      ensures proto == "WS" <==> node in wsConns
      ensures proto != "WS" ==> proto == if directedIsTcp then "TCP" else "UDP"
    {
      if node in wsConns {
        proto := "WS";
      } else if directedIsTcp {
        proto := "TCP";
      } else {
        proto := "UDP";
      }
    }

    /** `P2pPingHandler::handle`: the sender is alive; a ping, and only a ping, is answered. */
    method OnPing(isPing: bool, from: Node, now: nat) returns (pong: Option<Node>)
      modifies this`p2pConns, this`sink
      ensures from == [] ==> p2pConns == old(p2pConns) && sink == old(sink) && pong == None
      ensures from != [] ==>
                p2pConns == Mark(old(p2pConns), from, Udp, None, now) &&
                sink == old(sink) + (if from in old(p2pConns) then [] else [PeerConnected(from, Udp)]) &&
                pong == if isPing then Some(from) else None
    {
      pong := None;
      if from == [] {
        return;
      }
      MarkLive(from, Udp, None, now);
      if isPing {
        pong := Some(from);
      }
    }

    /** One turn of the heartbeat thread, undisturbed: of the links that are not WebSocket links, those
        seen within the last fifteen seconds stay and are pinged, the others go and are reported;
        WebSocket links are left alone. */
    method HeartbeatTick(order: seq<Node>, now: nat) returns (pings: seq<Node>)
      requires Enumerates(order, p2pConns)
      modifies this`p2pConns, this`sink
      ensures p2pConns == Survivors(old(p2pConns), now)
      ensures sink == old(sink) + Disconnections(Evicted(old(p2pConns), order, now))
      ensures pings == Pinged(old(p2pConns), order, now)
      ensures Swept(old(p2pConns), p2pConns, pings, sink[|old(sink)|..], now)
    {
      var snapshot := p2pConns;
      pings := [];
      for k := 0 to |order|
        invariant p2pConns == Sweep(snapshot, order[..k], now)
        invariant sink == old(sink) + Disconnections(Evicted(snapshot, order[..k], now))
        invariant pings == Pinged(snapshot, order[..k], now)
      {
        SweepNext(snapshot, order, k, now);
        var pinged := Visit(order[k], snapshot[order[k]], now);
        if pinged {
          pings := pings + [order[k]];
        }
      }
      assert order[..|order|] == order;
      SweepIsOrderless(snapshot, order, now);
      SweptBy(snapshot, order, now);
      assert sink[|old(sink)|..] == Disconnections(Evicted(snapshot, order, now));
    }

    /** The heartbeat's decision about one entry of its snapshot. */
    method Visit(node: Node, c: P2pConn, now: nat) returns (pinged: bool)
      modifies this`p2pConns, this`sink
      ensures p2pConns == if Stale(c, now) then old(p2pConns) - {node} else old(p2pConns)
      ensures sink == old(sink) + (if Stale(c, now) && node in old(p2pConns) then [PeerDisconnected(node)] else [])
      ensures pinged <==> !c.kind.Ws? && !Stale(c, now)
    {
      pinged := false;
      if c.kind.Ws? {
        return;
      }
      if SaturatingSub(now, c.lastSeen) > TIMEOUT {
        DropLive(node);
      } else {
        pinged := true;
      }
    }
  }
}
