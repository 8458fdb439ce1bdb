/** The handshake as a protocol: two endpoints, and a network that may lose, delay, repeat and
    reorder every datagram and rewrite source addresses, but only carries what they sent. */
module HandshakeProtocol {
  import opened Bytes
  import opened Base
  import opened Chunking
  import opened PunchLinks
  import opened Handshake

  datatype Side = A | B

  function Other(side: Side): Side {
    if side == A then B else A
  }

  /** Where the thread of an endpoint is: in `hole_punch`, in `confirm_round_trip`, running the
      established link, past a timeout of either loop, or past the end of an established link. */
  datatype Phase = Punching | Confirming(peer: Addr) | Live(peer: Addr) | GaveUp | Closed

  /** `Got` refers to the position in the history of the send it delivers. */
  datatype Event = Sent(who: Side, datagram: Datagram) | Got(who: Side, origin: nat, src: Addr)

  datatype State = State(a: Phase, b: Phase, log: seq<Event>) {
    function At(side: Side): Phase {
      if side == A then a else b
    }

    function Move(side: Side, p: Phase, events: seq<Event>): (s: State)
      ensures s.At(side) == p && s.At(Other(side)) == At(Other(side)) && s.log == log + events
    {
      if side == A then State(p, b, log + events) else State(a, p, log + events)
    }
  }

  const INIT := State(Punching, Punching, [])

  datatype Action =
    | Probe(side: Side, candidate: Addr)
    | Ping(side: Side)
    | Data(side: Side, id: u32, frame: bytes, index: nat)
    | Deliver(side: Side, origin: nat, src: Addr, completes: bool)   // whether it completes a frame, if live
    | Timeout(side: Side)
    | Close(side: Side)

  function Sends(side: Side, ds: seq<Datagram>): (es: seq<Event>)
    ensures |es| == |ds| && forall i :: 0 <= i < |es| ==> es[i] == Sent(side, ds[i])
  {
    seq(|ds|, i requires 0 <= i < |ds| => Sent(side, ds[i]))
  }

  predicate Enabled(s: State, act: Action) {
    match act
    case Probe(side, _) => s.At(side).Punching?
    case Ping(side) => s.At(side).Confirming? || s.At(side).Live?
    case Data(side, _, frame, index) => s.At(side).Live? && index < ChunkCount(frame)
    case Deliver(side, origin, _, _) =>
      origin < |s.log| && s.log[origin].Sent? && s.log[origin].who == Other(side) &&
      !s.At(side).GaveUp? && !s.At(side).Closed?
    case Timeout(side) => s.At(side).Punching? || s.At(side).Confirming?
    case Close(side) => s.At(side).Live?
  }

  function Next(s: State, act: Action): State
    requires Enabled(s, act)
  {
    match act
    case Probe(side, candidate) => s.Move(side, Punching, [Sent(side, Datagram(candidate, PUNCH_PING))])
    case Ping(side) => s.Move(side, s.At(side), [Sent(side, Datagram(s.At(side).peer, PUNCH_PING))])
    case Data(side, id, frame, index) =>
      s.Move(side, s.At(side), [Sent(side, Datagram(s.At(side).peer, Packets(id, frame)[index]))])
    case Deliver(side, origin, src, completes) => Receive(s, side, origin, src, completes)
    case Timeout(side) => s.Move(side, GaveUp, [])
    case Close(side) => s.Move(side, Closed, [])
  }

  /** One datagram arrives; the endpoint reacts according to the loop it is in. */
  function Receive(s: State, side: Side, origin: nat, src: Addr, completes: bool): State
    requires Enabled(s, Deliver(side, origin, src, completes))
  {
    var m := Incoming(s.log[origin].datagram.pkt, src);
    var got := [Got(side, origin, src)];
    match s.At(side)
    case Punching =>
      var h := PunchHear(m);
      s.Move(side, if h.done.Some? then Confirming(h.done.value) else Punching, got + Sends(side, h.replies))
    case Confirming(peer) =>
      var h := ConfirmHear(peer, m);
      s.Move(side, if h.done.Some? then Live(h.done.value) else Confirming(h.peer), got + Sends(side, h.replies))
    case Live(peer) =>
      // the driver loop answers pings and follows every sign of life, completed frames included
      var reply := if m.pkt == PUNCH_PING then [Datagram(src, PUNCH_PONG)] else [];
      var newPeer := if m.pkt == PUNCH_PING || m.pkt == PUNCH_PONG || completes then src else peer;
      s.Move(side, Live(newPeer), got + Sends(side, reply))
    case _ => s
  }

  /** The state after a run, if every action of it was possible. */
  function RunFrom(s: State, acts: seq<Action>): Option<State>
    decreases |acts|
  {
    if acts == [] then Some(s)
    else if !Enabled(s, acts[0]) then None
    else RunFrom(Next(s, acts[0]), acts[1..])
  }

  // ---------------------------------------------------------------- the causality invariant

  predicate SentAt(log: seq<Event>, i: nat, who: Side, pkt: bytes) {
    i < |log| && log[i].Sent? && log[i].who == who && log[i].datagram.pkt == pkt
  }

  /** At position `j` side `who` received bytes `pkt` that the other side sent earlier. */
  predicate GotAt(log: seq<Event>, j: nat, who: Side, pkt: bytes) {
    j < |log| && log[j].Got? && log[j].who == who && log[j].origin < j && SentAt(log, log[j].origin, Other(who), pkt)
  }

  /** The pong sent at `k` answers a ping received before. */
  predicate Answers(log: seq<Event>, k: nat, who: Side) {
    exists j :: 0 <= j < k && GotAt(log, j, who, PUNCH_PING)
  }

  predicate HeardPong(log: seq<Event>, who: Side) {
    exists l :: 0 <= l < |log| && GotAt(log, l, who, PUNCH_PONG)
  }

  predicate Confirmed(s: State, side: Side) {
    s.At(side).Live? || s.At(side).Closed?
  }

  predicate Causal(s: State) {
    (forall k :: 0 <= k < |s.log| && s.log[k].Sent? && s.log[k].datagram.pkt == PUNCH_PONG ==>
      Answers(s.log, k, s.log[k].who)) &&
    (forall side :: Confirmed(s, side) ==> HeardPong(s.log, side))
  }

  lemma CausalGrows(log: seq<Event>, more: seq<Event>)
    ensures forall j: nat, who, pkt :: GotAt(log, j, who, pkt) ==> GotAt(log + more, j, who, pkt)
    ensures forall k: nat, who :: k <= |log| && Answers(log, k, who) ==> Answers(log + more, k, who)
    ensures forall who :: HeardPong(log, who) ==> HeardPong(log + more, who)
  {
    forall j: nat, who, pkt | GotAt(log, j, who, pkt)
      ensures GotAt(log + more, j, who, pkt)
    {
      assert (log + more)[j] == log[j] && (log + more)[log[j].origin] == log[log[j].origin];
    }
  }

  /** A chunk datagram is never mistaken for a pong. */
  lemma ChunkIsNoPong(id: u32, frame: bytes, index: nat)
    requires index < ChunkCount(frame)
    ensures Packets(id, frame)[index] != PUNCH_PONG
  {
    var pkt := Packets(id, frame)[index];
    assert pkt[2] == CHUNK_MAGIC[2];
  }

  lemma CausalStep(s: State, act: Action)
    requires Causal(s) && Enabled(s, act)
    ensures Causal(Next(s, act))
  {
    var t := Next(s, act);
    var more := t.log[|s.log|..];
    assert t.log == s.log + more;
    CausalGrows(s.log, more);
    match act
    case Data(side, id, frame, index) => ChunkIsNoPong(id, frame, index);
    case Deliver(side, origin, src, _) =>
      assert t.log[|s.log|] == Got(side, origin, src);
      assert GotAt(t.log, |s.log|, side, s.log[origin].datagram.pkt);
    case _ =>
  }

  lemma {:induction false} CausalRun(s: State, acts: seq<Action>)
    requires Causal(s) && RunFrom(s, acts).Some?
    ensures Causal(RunFrom(s, acts).value)
    decreases |acts|
  {
    if acts != [] {
      CausalStep(s, acts[0]);
      CausalRun(Next(s, acts[0]), acts[1..]);
    }
  }

  /** A ping of `side` reached the peer, after which the peer sent a pong that came back. */
  predicate RoundTrip(log: seq<Event>, side: Side) {
    exists i, j, k, l :: 0 <= i < j < k < l < |log| &&
      SentAt(log, i, side, PUNCH_PING) && log[j].Got? && log[j].who == Other(side) && log[j].origin == i &&
      SentAt(log, k, Other(side), PUNCH_PONG) && log[l].Got? && log[l].who == side && log[l].origin == k
  }

  /** Proven round trip: in every run, an endpoint that has left the confirmation loop with an
      address has seen a full round trip, in causal order. */
  lemma ConfirmedMeansRoundTrip(acts: seq<Action>, side: Side)
    requires RunFrom(INIT, acts).Some?
    ensures var s := RunFrom(INIT, acts).value;
            Confirmed(s, side) ==> RoundTrip(s.log, side)
  {
    CausalRun(INIT, acts);
    var s := RunFrom(INIT, acts).value;
    if Confirmed(s, side) {
      var l :| 0 <= l < |s.log| && GotAt(s.log, l, side, PUNCH_PONG);
      var k := s.log[l].origin;
      var j :| 0 <= j < k && GotAt(s.log, j, Other(side), PUNCH_PING);
      var i := s.log[j].origin;
      assert SentAt(s.log, i, side, PUNCH_PING) && SentAt(s.log, k, Other(side), PUNCH_PONG);
    }
  }

  /** If one direction never delivers anything, neither endpoint ever establishes a link. */
  lemma {:induction false} OneWayPathIsNeverLive(acts: seq<Action>, deaf: Side)
    requires RunFrom(INIT, acts).Some?
    requires forall n :: 0 <= n < |acts| ==> !(acts[n].Deliver? && acts[n].side == deaf)
    ensures forall side :: !Confirmed(RunFrom(INIT, acts).value, side)
  {
    NothingGot(INIT, acts, deaf);
    ConfirmedMeansRoundTrip(acts, A);
    ConfirmedMeansRoundTrip(acts, B);
  }

  lemma {:induction false} NothingGot(s: State, acts: seq<Action>, deaf: Side)
    requires RunFrom(s, acts).Some?
    requires forall n :: 0 <= n < |s.log| && s.log[n].Got? ==> s.log[n].who != deaf
    requires forall n :: 0 <= n < |acts| ==> !(acts[n].Deliver? && acts[n].side == deaf)
    ensures var t := RunFrom(s, acts).value;
            forall n :: 0 <= n < |t.log| && t.log[n].Got? ==> t.log[n].who != deaf
    decreases |acts|
  {
    if acts != [] {
      NothingGot(Next(s, acts[0]), acts[1..], deaf);
    }
  }

  // ---------------------------------------------------------------- exactly when

  /** The `n`-th action of the run brings a pong to `side` while it is in its confirmation loop. */
  predicate PongInTime(acts: seq<Action>, n: nat, side: Side) {
    n < |acts| && acts[n].Deliver? && acts[n].side == side && RunFrom(INIT, acts[..n]).Some? &&
    var s := RunFrom(INIT, acts[..n]).value;
    s.At(side).Confirming? && acts[n].origin < |s.log| && s.log[acts[n].origin].Sent? &&
    s.log[acts[n].origin].datagram.pkt == PUNCH_PONG
  }

  predicate GotPongInTime(acts: seq<Action>, side: Side) {
    exists n :: 0 <= n < |acts| && PongInTime(acts, n, side)
  }

  /** What the last action of a run does to the phase of `side`. */
  lemma {:induction false} LastAction(acts: seq<Action>, side: Side)
    requires acts != [] && RunFrom(INIT, acts).Some?
    ensures var n := |acts| - 1;
            RunFrom(INIT, acts[..n]).Some? &&
            var s, t := RunFrom(INIT, acts[..n]).value, RunFrom(INIT, acts).value;
            Enabled(s, acts[n]) && t == Next(s, acts[n]) &&
            (Confirmed(t, side) <==> Confirmed(s, side) || PongInTime(acts, n, side)) &&
            (t.At(side).Closed? <==> s.At(side).Closed? || acts[n] == Close(side))
  {
    var n := |acts| - 1;
    assert acts == acts[..n] + [acts[n]];
    RunPrefix(INIT, acts[..n], [acts[n]]);
    RunAppend(INIT, acts[..n], [acts[n]]);
    var s, act := RunFrom(INIT, acts[..n]).value, acts[n];
    assert [act][1..] == [];
    assert RunFrom(s, [act]) == if Enabled(s, act) then RunFrom(Next(s, act), []) else None;
    PhaseStep(s, act, side);
  }

  lemma PhaseStep(s: State, act: Action, side: Side)
    requires Enabled(s, act)
    ensures Confirmed(Next(s, act), side) <==>
              Confirmed(s, side) ||
              (act.Deliver? && act.side == side && s.At(side).Confirming? && s.log[act.origin].datagram.pkt == PUNCH_PONG)
    ensures Next(s, act).At(side).Closed? <==> s.At(side).Closed? || act == Close(side)
  {
    assert side == act.side || side == Other(act.side);
  }

  lemma {:induction false} RunPrefix(s: State, a: seq<Action>, b: seq<Action>)
    requires RunFrom(s, a + b).Some?
    ensures RunFrom(s, a).Some?
    decreases |a|
  {
    if a != [] {
      assert (a + b)[1..] == a[1..] + b;
      RunPrefix(Next(s, a[0]), a[1..], b);
    }
  }

  /** Exactly when an endpoint establishes the link: in every run it has done so if and only if a pong
      was delivered to it while it was confirming; the link is still up unless it was closed since. */
  lemma {:induction false} ConfirmedExactly(acts: seq<Action>, side: Side)
    requires RunFrom(INIT, acts).Some?
    ensures var s := RunFrom(INIT, acts).value;
            (Confirmed(s, side) <==> GotPongInTime(acts, side)) && (s.At(side).Closed? <==> Close(side) in acts)
    decreases |acts|
  {
    if acts != [] {
      var init := acts[..|acts| - 1];
      LastAction(acts, side);
      ConfirmedExactly(init, side);
      assert forall n :: 0 <= n < |init| ==> init[..n] == acts[..n];
      assert forall n :: 0 <= n < |init| ==> PongInTime(init, n, side) == PongInTime(acts, n, side);
    }
  }

  /** Exactly when both are live: each got a pong while confirming, and neither has closed. */
  lemma BothLiveExactly(acts: seq<Action>)
    requires RunFrom(INIT, acts).Some?
    ensures var s := RunFrom(INIT, acts).value;
            (s.a.Live? && s.b.Live?) <==>
              GotPongInTime(acts, A) && GotPongInTime(acts, B) && Close(A) !in acts && Close(B) !in acts
  {
    ConfirmedExactly(acts, A);
    ConfirmedExactly(acts, B);
  }

  // ---------------------------------------------------------------- what is not promised

  /** Confirmation is not agreement: there is a run in which one endpoint goes live while the other
      gives up, because every pong to it is lost. */
  lemma LiveIsNotAgreed(addr: Addr)
    ensures exists acts :: RunFrom(INIT, acts).Some? &&
              RunFrom(INIT, acts).value.a.Live? && RunFrom(INIT, acts).value.b.GaveUp?
  {
    var s3 := State(Confirming(addr), Confirming(addr), Opening(addr));
    var log4 := Opening(addr) + [Got(B, 4, addr), Sent(B, Datagram(addr, PUNCH_PONG))];
    var s4 := State(Confirming(addr), Confirming(addr), log4);
    var s5 := State(Live(addr), Confirming(addr), log4 + [Got(A, 6, addr)]);
    var acts := [Deliver(B, 4, addr, false), Deliver(A, 6, addr, false), Timeout(B)];
    assert Next(s3, acts[0]) == s4;
    assert Next(s4, acts[1]) == s5;
    RunSteps([s3, s4, s5, Next(s5, acts[2])], acts);
    var opening := [Probe(A, addr), Deliver(B, 0, addr, false), Deliver(A, 2, addr, false)];
    BothConfirming(addr, opening);
    RunAppend(INIT, opening, acts);
  }

  /** The history once each side has heard one probe of the other. */
  function Opening(addr: Addr): seq<Event> {
    var ping := Datagram(addr, PUNCH_PING);
    [Sent(A, ping), Got(B, 0, addr), Sent(B, ping), Got(A, 2, addr), Sent(A, ping)]
  }

  lemma BothConfirming(addr: Addr, acts: seq<Action>)
    requires acts == [Probe(A, addr), Deliver(B, 0, addr, false), Deliver(A, 2, addr, false)]
    ensures RunFrom(INIT, acts) == Some(State(Confirming(addr), Confirming(addr), Opening(addr)))
  {
    assert IsProbe(PUNCH_PING);
    var s1 := State(Punching, Punching, Opening(addr)[..1]);
    var s2 := State(Punching, Confirming(addr), Opening(addr)[..3]);
    var s3 := State(Confirming(addr), Confirming(addr), Opening(addr));
    assert Next(INIT, acts[0]) == s1;
    assert Next(s1, acts[1]) == s2;
    assert Next(s2, acts[2]) == s3;
    RunSteps([INIT, s1, s2, s3], acts);
  }

  lemma {:induction false} RunAppend(s: State, a: seq<Action>, b: seq<Action>)
    requires RunFrom(s, a).Some?
    ensures RunFrom(s, a + b) == RunFrom(RunFrom(s, a).value, b)
    decreases |a|
  {
    if a == [] {
      assert a + b == b;
    } else {
      assert (a + b)[1..] == a[1..] + b;
      RunAppend(Next(s, a[0]), a[1..], b);
    }
  }

  /** A list of states linked by the actions is a run. */
  lemma {:induction false} RunSteps(states: seq<State>, acts: seq<Action>)
    requires |states| == |acts| + 1
    requires forall n :: 0 <= n < |acts| ==> Enabled(states[n], acts[n]) && Next(states[n], acts[n]) == states[n + 1]
    ensures RunFrom(states[0], acts) == Some(states[|acts|])
    decreases |acts|
  {
    if acts != [] {
      RunSteps(states[1..], acts[1..]);
    }
  }

  // ---------------------------------------------------------------- what is always possible

  /** What a datagram does to the endpoint that hears it, loop by loop: while punching, a datagram that
      starts with the magic is acknowledged and starts the confirmation with its sender; while confirming,
      a ping moves the peer address and is answered, and a pong establishes the link with its sender; once
      live, a ping is still answered, and every sign of life moves the peer address. Nothing else does
      anything. */
  lemma HearingExactly(s: State, side: Side, origin: nat, src: Addr, completes: bool)
    requires Enabled(s, Deliver(side, origin, src, completes))
    ensures var t, pkt := Next(s, Deliver(side, origin, src, completes)), s.log[origin].datagram.pkt;
            var said := t.log[|s.log| + 1..];
            t.At(Other(side)) == s.At(Other(side)) && t.log[..|s.log| + 1] == s.log + [Got(side, origin, src)] &&
            match s.At(side)
            case Punching =>
              if PUNCH_PING <= pkt then t.At(side) == Confirming(src) && said == [Sent(side, Datagram(src, PUNCH_PING))]
              else t.At(side) == Punching && said == []
            case Confirming(peer) =>
              if pkt == PUNCH_PONG then t.At(side) == Live(src) && said == []
              else if pkt == PUNCH_PING then t.At(side) == Confirming(src) && said == [Sent(side, Datagram(src, PUNCH_PONG))]
              else t.At(side) == Confirming(peer) && said == []
            case Live(peer) =>
              t.At(side) == Live(if pkt == PUNCH_PING || pkt == PUNCH_PONG || completes then src else peer) &&
              said == if pkt == PUNCH_PING then [Sent(side, Datagram(src, PUNCH_PONG))] else []
            case _ => true
  {
  }

  /** Confirmation stays possible: an endpoint that is confirming can always go live by three more steps,
      a ping, its delivery and that of the pong, as long as the other one is confirming or live. */
  lemma CanStillConfirm(s: State, side: Side, there: Addr, back: Addr)
    requires s.At(side).Confirming? && (s.At(Other(side)).Confirming? || s.At(Other(side)).Live?)
    ensures var n := |s.log|;
            var r := RunFrom(s, [Ping(side), Deliver(Other(side), n, there, false), Deliver(side, n + 2, back, false)]);
            r.Some? && r.value.At(side) == Live(back)
  {
    var n, other := |s.log|, Other(side);
    var acts := [Ping(side), Deliver(other, n, there, false), Deliver(side, n + 2, back, false)];
    var a := Next(s, acts[0]);
    assert a.log[n] == Sent(side, Datagram(s.At(side).peer, PUNCH_PING));
    HearingExactly(a, other, n, there, false);
    var b := Next(a, acts[1]);
    assert b.log[n + 2] == Sent(other, Datagram(there, PUNCH_PONG)) by {
      assert b.log[n + 2] == b.log[n + 2..][0];
    }
    assert b.At(side) == s.At(side);
    HearingExactly(b, side, n + 2, back, false);
    RunSteps([s, a, b, Next(b, acts[2])], acts);
  }
}
