/** Conservation of connection events over every interleaving. */
module EventConservation {
  import opened Base
  import opened ConnIds
  import opened LiveTables
  import opened Registry

  /** +1 for a PeerConnected of `node`, -1 for a PeerDisconnected. */
  function Weight(e: CoreEvent, node: Node): int {
    match e
    case PeerConnected(n, _) => if n == node then 1 else 0
    case PeerDisconnected(n) => if n == node then -1 else 0
    case _ => 0
  }

  function EmittedBalance(events: seq<CoreEvent>, node: Node): int {
    if events == [] then 0
    else EmittedBalance(events[..|events| - 1], node) + Weight(events[|events| - 1], node)
  }

  /** What a thread is still to emit. */
  function PendingOf(pc: Pc, node: Node): int {
    if pc.Emit? then Weight(pc.event, node) + PendingOf(pc.next, node) else 0
  }

  function Pending(threads: seq<Thread>, node: Node): int {
    if threads == [] then 0
    else Pending(threads[..|threads| - 1], node) + PendingOf(threads[|threads| - 1].pc, node)
  }

  function Live(m: Conns, node: Node): int {
    if node in m then 1 else 0
  }

  /** Emitted plus pending connections minus disconnections. */
  function Balance(s: State, node: Node): int {
    EmittedBalance(s.shared.emitted, node) + Pending(s.threads, node)
  }

  lemma {:induction false} PendingUpdate(threads: seq<Thread>, i: nat, th: Thread, node: Node)
    requires i < |threads|
    ensures Pending(threads[i := th], node) + PendingOf(threads[i].pc, node) ==
              Pending(threads, node) + PendingOf(th.pc, node)
    decreases |threads|
  {
    var n := |threads| - 1;
    if i == n {
      assert threads[i := th][..n] == threads[..n];
    } else {
      assert threads[i := th][..n] == threads[..n][i := th];
      PendingUpdate(threads[..n], i, th, node);
    }
  }

  /** A step of a thread moves the balance exactly as it moves the table. */
  lemma AdvanceConserves(sh: Shared, th: Thread, inp: Input, node: Node)
    requires Advance(sh, th, inp).Some?
    ensures var e := Advance(sh, th, inp).value;
            EmittedBalance(e.shared.emitted, node) + PendingOf(e.pc, node) - Live(e.shared.p2p, node)
            == EmittedBalance(sh.emitted, node) + PendingOf(th.pc, node) - Live(sh.p2p, node)
  {
    if th.pc.Emit? {
      assert (sh.emitted + [th.pc.event])[..|sh.emitted|] == sh.emitted;
    }
  }

  lemma RunStepConserves(s: State, tid: nat, inp: Input, node: Node)
    requires Next(s, Run(tid, inp)).Some?
    ensures var t := Next(s, Run(tid, inp)).value;
            Balance(t, node) - Live(t.shared.p2p, node) == Balance(s, node) - Live(s.shared.p2p, node)
  {
    var th := s.threads[tid];
    AdvanceConserves(s.shared, th, inp, node);
    PendingUpdate(s.threads, tid, th.(pc := Advance(s.shared, th, inp).value.pc), node);
  }

  lemma SpawnConserves(s: State, d: Option<Driver>, pc: Pc, node: Node)
    requires !pc.Emit?
    ensures Balance(Spawn(s, d, pc), node) == Balance(s, node)
  {
    assert (s.threads + [Thread(d, pc)])[..|s.threads|] == s.threads;
  }

  lemma StepConserves(s: State, act: Action, node: Node)
    requires Next(s, act).Some? && Balance(s, node) == Live(s.shared.p2p, node)
    ensures var t := Next(s, act).value; Balance(t, node) == Live(t.shared.p2p, node)
  {
    match act
    case SpawnWs => SpawnConserves(s, Some(Driver(WsDriver, s.issued.ws)), WsLoop(None), node);
    case SpawnPunch(n) => SpawnConserves(s, Some(Driver(PunchDriver, s.issued.punch)), LinkStart(n), node);
    case SpawnRtc(n) => SpawnConserves(s, Some(Driver(RtcDriver, s.issued.rtc)), LinkStart(n), node);
    case SpawnPing(from) => SpawnConserves(s, None, PingHandler(from), node);
    case SpawnBye(from) => SpawnConserves(s, None, ByeHandler(from), node);
    case SpawnBeat => SpawnConserves(s, None, BeatIdle, node);
    case Run(tid, inp) => RunStepConserves(s, tid, inp, node);
  }

  lemma {:induction false} RunConserves(s: State, acts: seq<Action>, node: Node)
    requires RunFrom(s, acts).Some? && Balance(s, node) == Live(s.shared.p2p, node)
    ensures var t := RunFrom(s, acts).value; Balance(t, node) == Live(t.shared.p2p, node)
    decreases |acts|
  {
    if acts != [] {
      StepConserves(s, acts[0], node);
      RunConserves(Next(s, acts[0]).value, acts[1..], node);
    }
  }

  /** Event conservation: in every reachable state and for each peer, connections emitted or about
      to be minus disconnections emitted or about to be is 1 if the peer is in the live table and 0
      if it is not. */
  lemma EventsAreConserved(acts: seq<Action>, node: Node)
    requires RunFrom(INIT, acts).Some?
    ensures var s := RunFrom(INIT, acts).value; Balance(s, node) == Live(s.shared.p2p, node)
  {
    RunConserves(INIT, acts, node);
  }

  lemma {:induction false} NothingPending(threads: seq<Thread>, node: Node)
    requires forall i :: 0 <= i < |threads| ==> !threads[i].pc.Emit?
    ensures Pending(threads, node) == 0
    decreases |threads|
  {
    if threads != [] {
      NothingPending(threads[..|threads| - 1], node);
    }
  }

  /** Whoever counts the events it has been given agrees with the live table whenever no thread is
      about to emit. */
  lemma QuiescentSinkAgrees(acts: seq<Action>, node: Node)
    requires RunFrom(INIT, acts).Some?
    requires forall i :: 0 <= i < |RunFrom(INIT, acts).value.threads| ==> !RunFrom(INIT, acts).value.threads[i].pc.Emit?
    ensures var s := RunFrom(INIT, acts).value;
            EmittedBalance(s.shared.emitted, node) == Live(s.shared.p2p, node)
  {
    EventsAreConserved(acts, node);
    NothingPending(RunFrom(INIT, acts).value.threads, node);
  }

  /** What a step does to the entry of a peer that stays in the table or comes into it: a packet on a
      punched link of the peer refreshes it; marking the peer refreshes it too and keeps its kind and,
      unless a punched link brings one, its address; a new entry has the kind of whoever marks it.
      Nothing else touches it. */
  lemma EntryStep(sh: Shared, th: Thread, inp: Input, node: Node)
    requires Advance(sh, th, inp).Some? && node in Advance(sh, th, inp).value.shared.p2p
    ensures var c := Advance(sh, th, inp).value.shared.p2p[node];
            if inp.Packet? && th.pc == LinkLoop(node) && node in sh.p2p then c == sh.p2p[node].(lastSeen := inp.now)
            else if Marks(th.pc) == Some(node) then
              inp.Go? && c.lastSeen == inp.now &&
              var punched := th.pc.LinkMark? && th.driver.Some? && th.driver.value.kind.PunchDriver?;
              var addr := if punched then inp.addr else None;
              if node in sh.p2p then
                c.kind == sh.p2p[node].kind && c.addr == if addr.Some? then addr else sh.p2p[node].addr
              else
                c.addr == addr &&
                c.kind == if th.pc.PingHandler? then Udp else if th.pc.WsMark? then Ws else if punched then Punch else WebRtc
            else node in sh.p2p && c == sh.p2p[node]
  {
  }

  /** The kind of a link is fixed when it appears: no step changes it while the entry is there. */
  lemma KindIsFixed(s: State, act: Action, node: Node)
    requires Next(s, act).Some? && node in s.shared.p2p && node in Next(s, act).value.shared.p2p
    ensures Next(s, act).value.shared.p2p[node].kind == s.shared.p2p[node].kind
  {
  }
}
