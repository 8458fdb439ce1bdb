/** LAN discovery: announces are recorded and answered once, replies are only recorded. */
module Discovery {
  import opened Base

  /** A beacon in flight: device `src` sent it, device `dst` will get it. */
  datatype Flight = Flight(src: nat, dst: nat, reply: bool)

  /** What a device remembers of a peer heard on the LAN: the device the beacon came from. */
  type Peers = map<Node, nat>

  // ---------------------------------------------------------------- one device

  class Discoverer {
    const me: Node
    var peers: Peers

    constructor (me: Node)
      ensures this.me == me && peers == map[]
    {
      this.me := me;
      peers := map[];
    }

    /** One turn of `discovery_recv_loop` on a well-formed beacon; says whether to answer. */
    method OnBeacon(node: Node, src: nat, reply: bool) returns (answer: bool)
      modifies this`peers
      ensures node == me ==> peers == old(peers) && !answer
      ensures node != me ==> peers == old(peers)[node := src] && (answer <==> !reply)
    {
      if node == me {
        return false;
      }
      peers := peers[node := src];
      answer := !reply;
    }
  }

  // ---------------------------------------------------------------- the network

  /** `ids` are the devices' node ids; the flights are a bag kept as a sequence. */
  datatype Net = Net(ids: seq<Node>, peers: seq<Peers>, flights: seq<Flight>)

  datatype Action =
    | Announce(src: nat, to: seq<nat>)     // multicast, broadcast and unicast sweep: any receivers
    | Deliver(k: nat)
    | Drop(k: nat)

  predicate WellFormed(n: Net) {
    |n.ids| == |n.peers| && forall k :: 0 <= k < |n.flights| ==> n.flights[k].src < |n.ids| && n.flights[k].dst < |n.ids|
  }

  predicate Possible(n: Net, act: Action) {
    match act
    case Announce(src, to) => src < |n.ids| && forall i :: 0 <= i < |to| ==> to[i] < |n.ids|
    case Deliver(k) => k < |n.flights|
    case Drop(k) => k < |n.flights|
  }

  function Without(flights: seq<Flight>, k: nat): (r: seq<Flight>)
    requires k < |flights|
    ensures |r| == |flights| - 1
    ensures forall i :: 0 <= i < |r| ==> r[i] == flights[if i < k then i else i + 1]
  {
    flights[..k] + flights[k + 1..]
  }

  function Announces(src: nat, to: seq<nat>): (r: seq<Flight>)
    ensures |r| == |to| && forall i :: 0 <= i < |r| ==> r[i] == Flight(src, to[i], false)
  {
    seq(|to|, i requires 0 <= i < |to| => Flight(src, to[i], false))
  }

  /** The beacon of `f` carries its sender's id. A device ignores its own; others are recorded, and an
      announce is answered to where it came from. */
  function Next(n: Net, act: Action): (m: Net)
    requires WellFormed(n) && Possible(n, act)
    ensures WellFormed(m) && m.ids == n.ids
  {
    match act
    case Announce(src, to) => n.(flights := n.flights + Announces(src, to))
    case Drop(k) => n.(flights := Without(n.flights, k))
    case Deliver(k) =>
      var f := n.flights[k];
      var rest := Without(n.flights, k);
      if n.ids[f.src] == n.ids[f.dst] then n.(flights := rest)
      else
        var known: Peers := n.peers[f.dst][n.ids[f.src] := f.src];
        Net(n.ids, n.peers[f.dst := known],
            if f.reply then rest else rest + [Flight(f.dst, f.src, true)])
  }

  function RunFrom(n: Net, acts: seq<Action>): (r: Option<Net>)
    requires WellFormed(n)
    ensures r.Some? ==> WellFormed(r.value) && r.value.ids == n.ids
    decreases |acts|
  {
    if acts == [] then Some(n)
    else if !Possible(n, acts[0]) then None
    else RunFrom(Next(n, acts[0]), acts[1..])
  }

  // ---------------------------------------------------------------- the traffic drains

  /** An announce can still cost two deliveries, a reply one. */
  function Cost(flights: seq<Flight>): nat {
    if flights == [] then 0
    else Cost(flights[..|flights| - 1]) + (if flights[|flights| - 1].reply then 1 else 2)
  }

  lemma {:induction false} CostWithout(flights: seq<Flight>, k: nat)
    requires k < |flights|
    ensures Cost(flights) == Cost(Without(flights, k)) + (if flights[k].reply then 1 else 2)
    decreases |flights|
  {
    var n := |flights| - 1;
    if k == n {
      assert Without(flights, k) == flights[..n];
    } else {
      CostWithout(flights[..n], k);
      assert Without(flights, k) == Without(flights[..n], k) + [flights[n]];
      assert Without(flights, k)[..n - 1] == Without(flights[..n], k);
    }
  }

  /** Every delivery and every loss brings the traffic closer to its end. */
  lemma TrafficShrinks(n: Net, act: Action)
    requires WellFormed(n) && Possible(n, act) && !act.Announce?
    ensures Cost(Next(n, act).flights) < Cost(n.flights)
  {
    CostWithout(n.flights, act.k);
    var rest := Without(n.flights, act.k);
    var back := Flight(n.flights[act.k].dst, n.flights[act.k].src, true);
    assert (rest + [back])[..|rest|] == rest;
  }

  /** Hence without new announces at most two deliveries follow each announce in flight and one each
      reply, and when that many have happened nothing is in flight any more. */
  lemma {:induction false} TrafficDrains(n: Net, acts: seq<Action>)
    requires WellFormed(n) && RunFrom(n, acts).Some?
    requires forall i :: 0 <= i < |acts| ==> !acts[i].Announce?
    ensures |acts| + Cost(RunFrom(n, acts).value.flights) <= Cost(n.flights)
    decreases |acts|
  {
    if acts != [] {
      TrafficShrinks(n, acts[0]);
      TrafficDrains(Next(n, acts[0]), acts[1..]);
    }
  }

  // ---------------------------------------------------------------- discovery is mutual

  predicate Knows(n: Net, a: nat, b: nat)
    requires WellFormed(n) && a < |n.ids| && b < |n.ids|
  {
    n.ids[b] in n.peers[a]
  }

  /** Whoever sent a reply knows the device it is for; nobody has recorded itself. */
  predicate Recorded(n: Net)
    requires WellFormed(n)
  {
    (forall k :: 0 <= k < |n.flights| && n.flights[k].reply ==>
      Knows(n, n.flights[k].src, n.flights[k].dst) && n.ids[n.flights[k].src] != n.ids[n.flights[k].dst]) &&
    (forall a :: 0 <= a < |n.ids| ==> !Knows(n, a, a))
  }

  lemma RecordedStep(n: Net, act: Action)
    requires WellFormed(n) && Possible(n, act) && Recorded(n)
    ensures Recorded(Next(n, act))
  {
    var m := Next(n, act);
    forall a | 0 <= a < |n.ids|
      ensures !Knows(m, a, a)
    {
      assert !Knows(n, a, a);
    }
    if act.Deliver? {
      assert forall a, b :: 0 <= a < |n.ids| && 0 <= b < |n.ids| && Knows(n, a, b) ==> Knows(m, a, b);
    }
  }

  lemma {:induction false} RecordedRun(n: Net, acts: seq<Action>)
    requires WellFormed(n) && Recorded(n) && RunFrom(n, acts).Some?
    ensures Recorded(RunFrom(n, acts).value)
    decreases |acts|
  {
    if acts != [] {
      RecordedStep(n, acts[0]);
      RecordedRun(Next(n, acts[0]), acts[1..]);
    }
  }

  /** Nothing known, nothing in flight. */
  predicate Silent(n: Net) {
    WellFormed(n) && n.flights == [] && forall a :: 0 <= a < |n.peers| ==> n.peers[a] == map[]
  }

  /** Mutual discovery: in every run, once a reply reaches the device whose announce it answers, each
      of the two knows the other; and no device ever records itself from a beacon. */
  lemma DiscoveryIsMutual(n: Net, acts: seq<Action>, k: nat)
    requires Silent(n) && RunFrom(n, acts).Some?
    requires k < |RunFrom(n, acts).value.flights| && RunFrom(n, acts).value.flights[k].reply
    ensures var m := RunFrom(n, acts).value;
            var f := m.flights[k];
            Knows(Next(m, Deliver(k)), f.src, f.dst) && Knows(Next(m, Deliver(k)), f.dst, f.src) &&
            forall a :: 0 <= a < |m.ids| ==> !Knows(Next(m, Deliver(k)), a, a)
  {
    RecordedRun(n, acts);
    RecordedStep(RunFrom(n, acts).value, Deliver(k));
  }

  /** An announce that arrives is answered: the device records the sender and has a reply to it in
      flight, which is the only thing added; nobody else learns anything. */
  lemma AnnounceIsAnswered(n: Net, k: nat)
    requires WellFormed(n) && k < |n.flights| && !n.flights[k].reply
    requires n.ids[n.flights[k].src] != n.ids[n.flights[k].dst]
    ensures var f, m := n.flights[k], Next(n, Deliver(k));
            m.flights == Without(n.flights, k) + [Flight(f.dst, f.src, true)] &&
            Knows(m, f.dst, f.src) && m.peers[f.dst][n.ids[f.src]] == f.src &&
            forall a :: 0 <= a < |n.ids| && a != f.dst ==> m.peers[a] == n.peers[a]
  {
  }

  /** The exchange: once an announce has arrived and then the reply to it, each of the two devices knows
      the other and where to find it, and neither beacon is in flight any more. */
  lemma AnnounceAndReply(n: Net, k: nat)
    requires WellFormed(n) && k < |n.flights| && !n.flights[k].reply
    requires n.ids[n.flights[k].src] != n.ids[n.flights[k].dst]
    ensures var f, r := n.flights[k], RunFrom(n, [Deliver(k), Deliver(|n.flights| - 1)]);
            r.Some? && r.value.flights == Without(n.flights, k) &&
            Knows(r.value, f.src, f.dst) && r.value.peers[f.src][n.ids[f.dst]] == f.dst &&
            Knows(r.value, f.dst, f.src) && r.value.peers[f.dst][n.ids[f.src]] == f.src
  {
    var f, m := n.flights[k], Next(n, Deliver(k));
    var last := |n.flights| - 1;
    AnnounceIsAnswered(n, k);
    assert m.flights[last] == Flight(f.dst, f.src, true);
    var e := Next(m, Deliver(last));
    assert e.flights == Without(n.flights, k);
    assert [Deliver(k), Deliver(last)][1..] == [Deliver(last)];
    assert RunFrom(m, [Deliver(last)]) == RunFrom(e, []);
  }

  /** A scan reaches whom it is sent to: one announce to each receiver, and nothing else, is in flight
      afterwards; so each receiver with another id, and the device that scans, know each other once that
      announce and the reply to it have arrived. */
  lemma ScanDiscovers(n: Net, src: nat, to: seq<nat>, i: nat)
    requires WellFormed(n) && Possible(n, Announce(src, to)) && i < |to| && n.ids[src] != n.ids[to[i]]
    ensures var k, last := |n.flights| + i, |n.flights| + |to| - 1;
            var r := RunFrom(n, [Announce(src, to)] + [Deliver(k), Deliver(last)]);
            r.Some? && Knows(r.value, src, to[i]) && Knows(r.value, to[i], src) && |r.value.flights| == last
  {
    var k, last := |n.flights| + i, |n.flights| + |to| - 1;
    var m := Next(n, Announce(src, to));
    var acts := [Announce(src, to)] + [Deliver(k), Deliver(last)];
    assert m.flights[k] == Flight(src, to[i], false);
    AnnounceAndReply(m, k);
    assert acts[1..] == [Deliver(k), Deliver(last)];
  }
}
