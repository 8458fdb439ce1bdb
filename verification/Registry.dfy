/** The live-connection registry as a concurrent protocol. Every region a thread executes under one
    lock is one atomic step; events are emitted outside the locks, in steps of their own, so an
    emission that is still to come is part of a thread's program counter. */
module Registry {
  import opened Base
  import opened ConnIds
  import opened LiveTables

  // ---------------------------------------------------------------- states

  /** Where a thread is. */
  datatype Pc =
    // handle_ws_conn
    | WsLoop(peer: Option<Node>)      // reading; `peer` is the slot claimed last
    | WsMark(node: Node)              // slot claimed and announced, about to mark live
    | WsExit(peer: Option<Node>)      // left the loop, about to look at its slot
    | WsDrop(node: Node)              // own slot removed, about to drop the live link
    // run_punch_conn and drive: a datagram link
    | LinkStart(node: Node)           // nothing registered yet
    | LinkMark(node: Node)            // slot claimed, about to mark live
    | LinkLoop(node: Node)            // ferrying
    | LinkCheck(node: Node)           // slot found to be its own, about to look for the live link
    | LinkExit(node: Node)            // left the loop, about to look at its slot
    | LinkDrop(node: Node)            // about to drop the live link
    // short-lived handlers and the heartbeat
    | PingHandler(from: Node)
    | ByeHandler(from: Node)
    | BeatIdle
    | BeatWork(list: seq<(Node, P2pConn)>, now: nat)
    // any thread
    | Emit(event: CoreEvent, next: Pc)
    | Done

  /** `driver` is None for handlers and the heartbeat. */
  datatype Thread = Thread(driver: Option<Driver>, pc: Pc)

  datatype Driver = Driver(kind: DriverKind, ticket: nat) {
    function Id(): nat {
      IdOf(kind, ticket)
    }
  }

  /** What the locks protect, and the event sink. */
  datatype Shared = Shared(ws: map<Node, nat>, p2p: Conns, emitted: seq<CoreEvent>)

  datatype State = State(shared: Shared, threads: seq<Thread>, issued: Issued)

  const INIT := State(Shared(map[], map[], []), [], Issued(0, 0, 0))

  // ---------------------------------------------------------------- steps

  /** What decides a step besides the state: the clock, the peer, the network, the hash map. */
  datatype Input =
    | Go(now: nat, addr: Option<Addr>)
    | Hello(node: Node)                                    // a Hello frame arrives
    | Leave                                                // closed, failed or refused
    | Open                                                 // the data channel opens
    | Packet(now: nat)                                     // a sign of life on a punched link
    | Snapshot(list: seq<(Node, P2pConn)>, now: nat)       // the heartbeat wakes up

  /** An uneventful step at time 0. */
  const GO: Input := Go(0, None)

  datatype Effect = Effect(shared: Shared, pc: Pc)

  predicate Owns(ws: map<Node, nat>, node: Node, id: nat) {
    node in ws && ws[node] == id
  }

  function Release(ws: map<Node, nat>, node: Node, id: nat): map<Node, nat> {
    if Owns(ws, node, id) then ws - {node} else ws
  }

  /** `mark_live`: one locked region, then an emission if the peer is new. */
  function MarkStep(sh: Shared, node: Node, kind: TransportKind, addr: Option<Addr>, now: nat, next: Pc): Effect {
    Effect(sh.(p2p := Mark(sh.p2p, node, kind, addr, now)),
           if node in sh.p2p then next else Emit(PeerConnected(node, kind), next))
  }

  /** `drop_live`: one locked region, then an emission if the peer was there. */
  function DropStep(sh: Shared, node: Node, next: Pc): Effect {
    Effect(sh.(p2p := sh.p2p - {node}), if node in sh.p2p then Emit(PeerDisconnected(node), next) else next)
  }

  predicate IsSnapshot(list: seq<(Node, P2pConn)>, m: Conns) {
    (forall i :: 0 <= i < |list| ==> list[i].0 in m && m[list[i].0] == list[i].1) &&
    (forall n :: n in m ==> exists i :: 0 <= i < |list| && list[i].0 == n) &&
    (forall i, j :: 0 <= i < j < |list| ==> list[i].0 != list[j].0)
  }

  /** One step of one thread, or None if the input does not apply where the thread is. */
  function Advance(sh: Shared, th: Thread, inp: Input): Option<Effect> {
    match th.pc
    case Emit(event, next) => if inp.Go? then Some(Effect(sh.(emitted := sh.emitted + [event]), next)) else None
    case Done => None
    case PingHandler(from) =>
      if !inp.Go? then None
      else if from == [] then Some(Effect(sh, Done))
      else Some(MarkStep(sh, from, Udp, None, inp.now, Done))
    case ByeHandler(from) => if inp.Go? then Some(DropStep(sh, from, Done)) else None
    case BeatIdle =>
      if inp.Snapshot? && IsSnapshot(inp.list, sh.p2p) then Some(Effect(sh, BeatWork(inp.list, inp.now))) else None
    case BeatWork(list, now) =>
      if !inp.Go? then None
      else if list == [] then Some(Effect(sh, BeatIdle))
      else if Stale(list[0].1, now) then Some(DropStep(sh, list[0].0, BeatWork(list[1..], now)))
      else Some(Effect(sh, BeatWork(list[1..], now)))
    case _ => if th.driver.Some? then AdvanceDriver(sh, th.driver.value, th.pc, inp) else None
  }

  function AdvanceDriver(sh: Shared, d: Driver, pc: Pc, inp: Input): Option<Effect> {
    match pc
    case WsLoop(peer) =>
      if inp.Leave? then Some(Effect(sh, WsExit(peer)))
      else if !inp.Hello? then None
      else if inp.node in sh.ws then Some(Effect(sh, WsExit(peer)))   // duplicate: drop this connection
      else Some(Effect(sh.(ws := sh.ws[inp.node := d.Id()]), Emit(WsConnected(inp.node), WsMark(inp.node))))
    case WsMark(node) => if inp.Go? then Some(MarkStep(sh, node, Ws, None, inp.now, WsLoop(Some(node)))) else None
    case WsExit(peer) =>
      if !inp.Go? then None
      else if peer.None? || !Owns(sh.ws, peer.value, d.Id()) then Some(Effect(sh, Done))
      else Some(Effect(sh.(ws := sh.ws - {peer.value}), Emit(WsDisconnected(peer.value), WsDrop(peer.value))))
    case WsDrop(node) => if inp.Go? then Some(DropStep(sh, node, Done)) else None
    case LinkStart(node) =>
      if d.kind.PunchDriver? && inp.Go? then
        if node in sh.ws then Some(Effect(sh, Done))                  // a link already exists
        else Some(Effect(sh.(ws := sh.ws[node := d.Id()]), LinkMark(node)))
      else if d.kind.RtcDriver? && inp.Open? then
        Some(Effect(sh.(ws := sh.ws[node := d.Id()]), LinkMark(node)))  // overwrites
      else if d.kind.RtcDriver? && inp.Leave? then Some(Effect(sh, Done))
      else None
    case LinkMark(node) =>
      if !inp.Go? then None
      else if d.kind.PunchDriver? then Some(MarkStep(sh, node, Punch, inp.addr, inp.now, LinkLoop(node)))
      else Some(MarkStep(sh, node, WebRtc, None, inp.now, LinkLoop(node)))
    case LinkLoop(node) =>
      if inp.Packet? && d.kind.PunchDriver? then Some(Effect(sh.(p2p := Touch(sh.p2p, node, inp.now)), pc))
      else if inp.Leave? then Some(Effect(sh, LinkExit(node)))
      else if inp.Go? then Some(Effect(sh, if Owns(sh.ws, node, d.Id()) then LinkCheck(node) else LinkExit(node)))
      else None
    case LinkCheck(node) =>
      if inp.Go? then Some(Effect(sh, if node in sh.p2p then LinkLoop(node) else LinkExit(node))) else None
    case LinkExit(node) =>
      if inp.Go? then Some(Effect(sh.(ws := Release(sh.ws, node, d.Id())), LinkDrop(node))) else None
    case LinkDrop(node) => if inp.Go? then Some(DropStep(sh, node, Done)) else None
    case _ => None
  }

  /** The peer whose live entry a thread's next step removes, if it is there. */
  function Drops(pc: Pc): Option<Node> {
    match pc
    case WsDrop(node) => Some(node)
    case LinkDrop(node) => Some(node)
    case ByeHandler(from) => Some(from)
    case BeatWork(list, now) => if list != [] && Stale(list[0].1, now) then Some(list[0].0) else None
    case _ => None
  }

  /** The peer whose live entry it creates or refreshes. */
  function Marks(pc: Pc): Option<Node> {
    match pc
    case PingHandler(from) => if from == [] then None else Some(from)
    case WsMark(node) => Some(node)
    case LinkMark(node) => Some(node)
    case _ => None
  }

  datatype Action =
    | SpawnWs
    | SpawnPunch(node: Node)
    | SpawnRtc(node: Node)
    | SpawnPing(from: Node)
    | SpawnBye(from: Node)
    | SpawnBeat
    | Run(tid: nat, inp: Input)

  function Spawn(s: State, d: Option<Driver>, pc: Pc): State {
    var n := s.issued;
    var counted :=
      if d.None? then n
      else match d.value.kind
           case WsDriver => n.(ws := n.ws + 1)
           case PunchDriver => n.(punch := n.punch + 1)
           case RtcDriver => n.(rtc := n.rtc + 1);
    State(s.shared, s.threads + [Thread(d, pc)], counted)
  }

  function Next(s: State, act: Action): Option<State> {
    match act
    case SpawnWs => Some(Spawn(s, Some(Driver(WsDriver, s.issued.ws)), WsLoop(None)))
    case SpawnPunch(node) => Some(Spawn(s, Some(Driver(PunchDriver, s.issued.punch)), LinkStart(node)))
    case SpawnRtc(node) => Some(Spawn(s, Some(Driver(RtcDriver, s.issued.rtc)), LinkStart(node)))
    case SpawnPing(from) => Some(Spawn(s, None, PingHandler(from)))
    case SpawnBye(from) => Some(Spawn(s, None, ByeHandler(from)))
    case SpawnBeat => Some(Spawn(s, None, BeatIdle))
    case Run(tid, inp) =>
      if tid >= |s.threads| then None
      else
        var e := Advance(s.shared, s.threads[tid], inp);
        if e.None? then None
        else Some(State(e.value.shared, s.threads[tid := s.threads[tid].(pc := e.value.pc)], s.issued))
  }

  /** The state after a run, if every action of it was possible. */
  function RunFrom(s: State, acts: seq<Action>): Option<State>
    decreases |acts|
  {
    if acts == [] then Some(s)
    else
      var n := Next(s, acts[0]);
      if n.None? then None else RunFrom(n.value, acts[1..])
  }

  /** A list of states linked by the actions is a run. */
  lemma {:induction false} RunSteps(states: seq<State>, acts: seq<Action>)
    requires |states| == |acts| + 1
    requires forall n :: 0 <= n < |acts| ==> Next(states[n], acts[n]) == Some(states[n + 1])
    ensures RunFrom(states[0], acts) == Some(states[|acts|])
    decreases |acts|
  {
    if acts != [] {
      RunSteps(states[1..], acts[1..]);
    }
  }

  lemma {:induction false} RunAppend(s: State, a: seq<Action>, b: seq<Action>)
    requires RunFrom(s, a).Some?
    ensures RunFrom(s, a + b) == RunFrom(RunFrom(s, a).value, b)
    decreases |a|
  {
    if a == [] {
      assert a + b == b;
    } else {
      assert (a + b)[1..] == a[1..] + b;
      RunAppend(Next(s, a[0]).value, a[1..], b);
    }
  }
}
