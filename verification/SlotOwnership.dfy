/** Who owns the slots of `ws_conns`, over every interleaving of the drivers. */
module SlotOwnership {
  import opened Base
  import opened ConnIds
  import opened LiveTables
  import opened Registry

  /** The peer whose slot a thread will look at when it leaves, once it has claimed one. */
  function Held(pc: Pc): Option<Node> {
    match pc
    case WsLoop(peer) => peer
    case WsMark(node) => Some(node)
    case WsExit(peer) => peer
    case LinkMark(node) => Some(node)
    case LinkLoop(node) => Some(node)
    case LinkCheck(node) => Some(node)
    case LinkExit(node) => Some(node)
    case Emit(_, next) => Held(next)
    case _ => None
  }

  /** Thread `t` registered the slot of `node` and has not finished with it: its receiver exists. */
  predicate Owner(s: State, node: Node, t: nat) {
    node in s.shared.ws && t < |s.threads| && s.threads[t].driver.Some? &&
    s.threads[t].driver.value.Id() == s.shared.ws[node] && Held(s.threads[t].pc) == Some(node)
  }

  predicate HasOwner(s: State, node: Node) {
    exists t :: 0 <= t < |s.threads| && Owner(s, node, t)
  }

  predicate Owned(s: State) {
    forall node :: node in s.shared.ws ==> HasOwner(s, node)
  }

  /** A WebSocket driver that still owns the slot of one peer claims that of another. */
  predicate Abandons(s: State, act: Action) {
    act.Run? && act.inp.Hello? && act.tid < |s.threads| &&
    var th := s.threads[act.tid];
    th.driver.Some? && th.pc.WsLoop? && th.pc.peer.Some? && act.inp.node !in s.shared.ws &&
    Owns(s.shared.ws, th.pc.peer.value, th.driver.value.Id())
  }

  /** Threads carry different tickets of the counters they drew from. */
  predicate Ticketed(s: State) {
    (forall i :: 0 <= i < |s.threads| && s.threads[i].driver.Some? ==>
      s.threads[i].driver.value.ticket < s.issued.Of(s.threads[i].driver.value.kind)) &&
    (forall i, j :: 0 <= i < j < |s.threads| && s.threads[i].driver.Some? ==> s.threads[i].driver != s.threads[j].driver)
  }

  lemma TicketedStep(s: State, act: Action)
    requires Ticketed(s) && Next(s, act).Some?
    ensures Ticketed(Next(s, act).value)
  {
  }

  /** While the id counters have room, no two drivers share an id. */
  lemma SameIdSameThread(s: State, i: nat, j: nat)
    requires Ticketed(s) && Room(s.issued) && i < |s.threads| && j < |s.threads|
    requires s.threads[i].driver.Some? && s.threads[j].driver.Some?
    requires s.threads[i].driver.value.Id() == s.threads[j].driver.value.Id()
    ensures i == j
  {
    IdsDistinctExactly(s.issued);
    var a, b := s.threads[i].driver.value, s.threads[j].driver.value;
    assert IdOf(a.kind, a.ticket) == IdOf(b.kind, b.ticket);
  }

  // ---------------------------------------------------------------- one step

  /** What a step does to the slots: it leaves them alone, claims one for the acting thread, or
      removes one the acting thread owned. */
  lemma AdvanceSlots(sh: Shared, th: Thread, inp: Input)
    requires Advance(sh, th, inp).Some?
    ensures var e := Advance(sh, th, inp).value;
            if e.shared.ws == sh.ws then
              forall n :: Held(th.pc) == Some(n) && th.driver.Some? && Owns(sh.ws, n, th.driver.value.Id()) ==>
                Held(e.pc) == Some(n)
            else
              th.driver.Some? && var id := th.driver.value.Id();
              if Held(e.pc).Some? then
                var n := Held(e.pc).value;
                e.shared.ws == sh.ws[n := id] && (n in sh.ws ==> th.driver.value.kind.RtcDriver? && inp.Open?)
              else
                Held(th.pc).Some? && var n := Held(th.pc).value;
                Owns(sh.ws, n, id) && e.shared.ws == sh.ws - {n}
  {
    var e := Advance(sh, th, inp).value;
    if e.pc.Emit? {
      assert Held(e.pc) == Held(e.pc.next);
    }
  }

  /** Slots of other threads' peers keep their owner across a step of `tid`. */
  lemma OtherOwnersStay(s: State, tid: nat, inp: Input, node: Node, t: nat)
    requires Next(s, Run(tid, inp)).Some? && Owner(s, node, t) && t != tid
    requires var u := Next(s, Run(tid, inp)).value; Owns(u.shared.ws, node, s.shared.ws[node])
    ensures HasOwner(Next(s, Run(tid, inp)).value, node)
  {
    assert Owner(Next(s, Run(tid, inp)).value, node, t);
  }

  lemma RunKeepsOwners(s: State, tid: nat, inp: Input, node: Node)
    requires Owned(s) && Next(s, Run(tid, inp)).Some? && !Abandons(s, Run(tid, inp))
    requires node in Next(s, Run(tid, inp)).value.shared.ws
    ensures HasOwner(Next(s, Run(tid, inp)).value, node)
  {
    var u := Next(s, Run(tid, inp)).value;
    var th := s.threads[tid];
    AdvanceSlots(s.shared, th, inp);
    if node in s.shared.ws && u.shared.ws[node] == s.shared.ws[node] {
      assert HasOwner(s, node);
      var t :| 0 <= t < |s.threads| && Owner(s, node, t);
      if t != tid {
        OtherOwnersStay(s, tid, inp, node, t);
      } else {
        HolderKeepsHolding(s, tid, inp, node);
        assert Owner(u, node, tid);
      }
    } else {
      assert Owner(u, node, tid);
    }
  }

  lemma HolderKeepsHolding(s: State, tid: nat, inp: Input, node: Node)
    requires Next(s, Run(tid, inp)).Some? && !Abandons(s, Run(tid, inp)) && Owner(s, node, tid)
    requires Owns(Next(s, Run(tid, inp)).value.shared.ws, node, s.shared.ws[node])
    ensures Held(Next(s, Run(tid, inp)).value.threads[tid].pc) == Some(node)
  {
    var th := s.threads[tid];
    AdvanceSlots(s.shared, th, inp);
    var e := Advance(s.shared, th, inp).value;
    if e.pc.Emit? {
      assert Held(e.pc) == Held(e.pc.next);
    }
  }

  /** Abandoning leaves a slot nobody will release. */
  lemma AbandonedHasNoOwner(s: State, tid: nat, inp: Input)
    requires Ticketed(s) && Room(s.issued) && Next(s, Run(tid, inp)).Some? && Abandons(s, Run(tid, inp))
    ensures !Owned(Next(s, Run(tid, inp)).value)
  {
    var u := Next(s, Run(tid, inp)).value;
    var p := s.threads[tid].pc.peer.value;
    assert p in u.shared.ws && u.shared.ws[p] == s.threads[tid].driver.value.Id();
    assert Held(u.threads[tid].pc) == Held(u.threads[tid].pc.next) == Some(inp.node);
    forall t | 0 <= t < |u.threads|
      ensures !Owner(u, p, t)
    {
      if Owner(u, p, t) {
        SameIdSameThread(s, t, tid);
      }
    }
    assert !HasOwner(u, p);
  }

  /** Slot ownership, step by step: from a state in which every slot is owned by a driver still at
      work, a step leads to another such state exactly when it is not a driver claiming a second
      slot over one it still owns. */
  lemma OwnershipStepExactly(s: State, act: Action)
    requires Ticketed(s) && Room(s.issued) && Owned(s) && Next(s, act).Some?
    ensures Owned(Next(s, act).value) <==> !Abandons(s, act)
  {
    if act.Run? {
      if Abandons(s, act) {
        AbandonedHasNoOwner(s, act.tid, act.inp);
      } else {
        OwnedAfterRun(s, act.tid, act.inp);
      }
    } else {
      OwnedAfterSpawn(s, act);
    }
  }

  lemma OwnedAfterRun(s: State, tid: nat, inp: Input)
    requires Owned(s) && Next(s, Run(tid, inp)).Some? && !Abandons(s, Run(tid, inp))
    ensures Owned(Next(s, Run(tid, inp)).value)
  {
    var u := Next(s, Run(tid, inp)).value;
    forall node | node in u.shared.ws
      ensures HasOwner(u, node)
    {
      RunKeepsOwners(s, tid, inp, node);
    }
  }

  lemma OwnedAfterSpawn(s: State, act: Action)
    requires Owned(s) && !act.Run?
    ensures Owned(Next(s, act).value)
  {
    var u := Next(s, act).value;
    forall node | node in u.shared.ws
      ensures HasOwner(u, node)
    {
      assert HasOwner(s, node);
      var t :| 0 <= t < |s.threads| && Owner(s, node, t);
      assert Owner(u, node, t);
    }
  }

  // ---------------------------------------------------------------- whole runs

  /** No step of the run abandons a slot. */
  predicate Disciplined(s: State, acts: seq<Action>)
    decreases |acts|
  {
    acts == [] ||
    (!Abandons(s, acts[0]) && (Next(s, acts[0]).Some? ==> Disciplined(Next(s, acts[0]).value, acts[1..])))
  }

  lemma {:induction false} DisciplinedRun(s: State, acts: seq<Action>)
    requires Owned(s) && RunFrom(s, acts).Some? && Disciplined(s, acts)
    ensures Owned(RunFrom(s, acts).value)
    decreases |acts|
  {
    if acts != [] {
      if acts[0].Run? {
        OwnedAfterRun(s, acts[0].tid, acts[0].inp);
      } else {
        OwnedAfterSpawn(s, acts[0]);
      }
      DisciplinedRun(Next(s, acts[0]).value, acts[1..]);
    }
  }

  lemma {:induction false} TicketedRun(s: State, acts: seq<Action>)
    requires Ticketed(s) && RunFrom(s, acts).Some?
    ensures Ticketed(RunFrom(s, acts).value)
    decreases |acts|
  {
    if acts != [] {
      TicketedStep(s, acts[0]);
      TicketedRun(Next(s, acts[0]).value, acts[1..]);
    }
  }

  /** No connection ever receives a second Hello. */
  predicate OneHelloEach(acts: seq<Action>) {
    forall i, j :: 0 <= i < j < |acts| && acts[i].Run? && acts[j].Run? && acts[i].inp.Hello? && acts[j].inp.Hello? ==>
      acts[i].tid != acts[j].tid
  }

  /** Has claimed a slot as a WebSocket driver. */
  predicate HasPeer(pc: Pc) {
    match pc
    case WsLoop(peer) => peer.Some?
    case WsMark(_) => true
    case Emit(_, next) => HasPeer(next)
    case _ => false
  }

  lemma {:induction false} OneHelloNeverAbandons(s: State, acts: seq<Action>, greeted: set<nat>)
    requires RunFrom(s, acts).Some? && OneHelloEach(acts)
    requires forall t :: 0 <= t < |s.threads| && HasPeer(s.threads[t].pc) ==> t in greeted
    requires forall i :: 0 <= i < |acts| && acts[i].Run? && acts[i].inp.Hello? ==> acts[i].tid !in greeted
    ensures Disciplined(s, acts)
    decreases |acts|
  {
    if acts != [] {
      var u := Next(s, acts[0]).value;
      var now := greeted + (if acts[0].Run? && acts[0].inp.Hello? then {acts[0].tid} else {});
      forall t | 0 <= t < |u.threads| && HasPeer(u.threads[t].pc)
        ensures t in now
      {
        if acts[0].Run? && t == acts[0].tid && u.threads[t].pc.Emit? {
          assert HasPeer(u.threads[t].pc) == HasPeer(u.threads[t].pc.next);
        }
      }
      OneHelloNeverAbandons(u, acts[1..], now);
    }
  }

  /** Slot ownership: with one Hello per connection, in every reachable state every slot of
      `ws_conns` belongs to a driver that registered it and has not finished its cleanup. */
  lemma SlotsAreOwned(acts: seq<Action>)
    requires RunFrom(INIT, acts).Some? && OneHelloEach(acts)
    ensures Owned(RunFrom(INIT, acts).value)
  {
    OneHelloNeverAbandons(INIT, acts, {});
    DisciplinedRun(INIT, acts);
  }

  /** Once every driver has finished, no slot is left; and while the chooser finds a slot, some
      driver that has not finished holds its receiver. */
  lemma NoDanglingSenders(acts: seq<Action>, node: Node)
    requires RunFrom(INIT, acts).Some? && OneHelloEach(acts)
    ensures var s := RunFrom(INIT, acts).value;
            (node in s.shared.ws ==> exists t :: 0 <= t < |s.threads| && Owner(s, node, t) && !s.threads[t].pc.Done?) &&
            ((forall t :: 0 <= t < |s.threads| ==> s.threads[t].pc.Done?) ==> s.shared.ws == map[])
  {
    SlotsAreOwned(acts);
    var s := RunFrom(INIT, acts).value;
    forall n | n in s.shared.ws
      ensures exists t :: 0 <= t < |s.threads| && Owner(s, n, t) && !s.threads[t].pc.Done?
    {
      assert HasOwner(s, n);
    }
  }

  /** No driver removes another driver's slot, and none but an opening WebRTC channel replaces one:
      in any reachable state of a run with one Hello per connection and ids to spare. */
  lemma OnlyOwnersRelease(acts: seq<Action>, act: Action, node: Node)
    requires RunFrom(INIT, acts).Some? && OneHelloEach(acts)
    requires var s := RunFrom(INIT, acts).value;
             Room(s.issued) && Next(s, act).Some? && node in s.shared.ws &&
             !Owns(Next(s, act).value.shared.ws, node, s.shared.ws[node])
    ensures var s := RunFrom(INIT, acts).value;
            act.Run? && act.tid < |s.threads| &&
            if node in Next(s, act).value.shared.ws then
              act.inp.Open? && s.threads[act.tid].driver.Some? && s.threads[act.tid].driver.value.kind.RtcDriver?
            else
              forall t :: 0 <= t < |s.threads| ==> (Owner(s, node, t) <==> t == act.tid)
  {
    var s := RunFrom(INIT, acts).value;
    TicketedRun(INIT, acts);
    AdvanceSlots(s.shared, s.threads[act.tid], act.inp);
    if node !in Next(s, act).value.shared.ws {
      assert Owner(s, node, act.tid);
      forall t | 0 <= t < |s.threads| && Owner(s, node, t)
        ensures t == act.tid
      {
        SameIdSameThread(s, t, act.tid);
      }
    }
  }

  // ---------------------------------------------------------------- a second Hello

  /** A registry with one WebSocket driver, the first of its kind. */
  function Single(sh: Shared, pc: Pc): State {
    State(sh, [Thread(Some(Driver(WsDriver, 0)), pc)], Issued(1, 0, 0))
  }

  const ID: nat := 1

  lemma SingleStep(sh: Shared, pc: Pc, inp: Input, e: Effect)
    requires Advance(sh, Thread(Some(Driver(WsDriver, 0)), pc), inp) == Some(e)
    ensures Next(Single(sh, pc), Run(0, inp)) == Some(Single(e.shared, e.pc))
  {
    assert Single(sh, pc).threads[0 := Thread(Some(Driver(WsDriver, 0)), e.pc)] == Single(e.shared, e.pc).threads;
  }

  function Claimed(sh: Shared, n: Node): Shared {
    Shared(sh.ws[n := ID], sh.p2p[n := P2pConn(Ws, 0, None)], sh.emitted + [WsConnected(n)] + [PeerConnected(n, Ws)])
  }

  /** A Hello of a new peer is always accepted, whether or not the connection has a peer already. */
  lemma ClaimRuns(sh: Shared, peer: Option<Node>, n: Node)
    requires n !in sh.ws && n !in sh.p2p
    ensures RunFrom(Single(sh, WsLoop(peer)), [Run(0, Hello(n)), Run(0, GO), Run(0, GO), Run(0, GO)])
              == Some(Single(Claimed(sh, n), WsLoop(Some(n))))
  {
    var a := sh.(ws := sh.ws[n := ID]);
    var b := a.(emitted := sh.emitted + [WsConnected(n)]);
    var c := b.(p2p := sh.p2p[n := P2pConn(Ws, 0, None)]);
    SingleStep(sh, WsLoop(peer), Hello(n), Effect(a, Emit(WsConnected(n), WsMark(n))));
    SingleStep(a, Emit(WsConnected(n), WsMark(n)), GO, Effect(b, WsMark(n)));
    SingleStep(b, WsMark(n), GO, Effect(c, Emit(PeerConnected(n, Ws), WsLoop(Some(n)))));
    SingleStep(c, Emit(PeerConnected(n, Ws), WsLoop(Some(n))), GO, Effect(Claimed(sh, n), WsLoop(Some(n))));
    RunSteps([Single(sh, WsLoop(peer)), Single(a, Emit(WsConnected(n), WsMark(n))), Single(b, WsMark(n)),
              Single(c, Emit(PeerConnected(n, Ws), WsLoop(Some(n)))), Single(Claimed(sh, n), WsLoop(Some(n)))],
             [Run(0, Hello(n)), Run(0, GO), Run(0, GO), Run(0, GO)]);
  }

  function Released(sh: Shared, n: Node): Shared {
    Shared(sh.ws - {n}, sh.p2p - {n}, sh.emitted + [WsDisconnected(n)] + [PeerDisconnected(n)])
  }

  lemma DepartRuns(sh: Shared, n: Node)
    requires Owns(sh.ws, n, ID) && n in sh.p2p
    ensures RunFrom(Single(sh, WsLoop(Some(n))), [Run(0, Leave), Run(0, GO), Run(0, GO), Run(0, GO), Run(0, GO)])
              == Some(Single(Released(sh, n), Done))
  {
    var a := sh.(ws := sh.ws - {n});
    var b := a.(emitted := sh.emitted + [WsDisconnected(n)]);
    var c := b.(p2p := sh.p2p - {n});
    var d := c.(emitted := b.emitted + [PeerDisconnected(n)]);
    SingleStep(sh, WsLoop(Some(n)), Leave, Effect(sh, WsExit(Some(n))));
    SingleStep(sh, WsExit(Some(n)), GO, Effect(a, Emit(WsDisconnected(n), WsDrop(n))));
    SingleStep(a, Emit(WsDisconnected(n), WsDrop(n)), GO, Effect(b, WsDrop(n)));
    SingleStep(b, WsDrop(n), GO, Effect(c, Emit(PeerDisconnected(n), Done)));
    SingleStep(c, Emit(PeerDisconnected(n), Done), GO, Effect(d, Done));
    RunSteps([Single(sh, WsLoop(Some(n))), Single(sh, WsExit(Some(n))), Single(a, Emit(WsDisconnected(n), WsDrop(n))),
              Single(b, WsDrop(n)), Single(c, Emit(PeerDisconnected(n), Done)), Single(d, Done)],
             [Run(0, Leave), Run(0, GO), Run(0, GO), Run(0, GO), Run(0, GO)]);
  }

  /** One connection that announces two peers leaks the first slot: after its driver has finished,
      with nothing else running, `ws_conns` still lists a peer nobody serves. */
  lemma SecondHelloLeaks(a: Node, b: Node)
    requires a != b
    ensures exists acts :: RunFrom(INIT, acts).Some? &&
              var s := RunFrom(INIT, acts).value;
              a in s.shared.ws && forall t :: 0 <= t < |s.threads| ==> s.threads[t].pc.Done?
  {
    var claimA := [Run(0, Hello(a)), Run(0, GO), Run(0, GO), Run(0, GO)];
    var claimB := [Run(0, Hello(b)), Run(0, GO), Run(0, GO), Run(0, GO)];
    var depart := [Run(0, Leave), Run(0, GO), Run(0, GO), Run(0, GO), Run(0, GO)];
    var empty := INIT.shared;
    var s0 := Single(empty, WsLoop(None));
    assert Next(INIT, SpawnWs) == Some(s0) by {
      assert INIT.threads + s0.threads == s0.threads;
    }
    RunSteps([INIT, s0], [SpawnWs]);
    ClaimRuns(empty, None, a);
    RunAppend(INIT, [SpawnWs], claimA);
    var one := Claimed(empty, a);
    ClaimRuns(one, Some(a), b);
    RunAppend(INIT, [SpawnWs] + claimA, claimB);
    var two := Claimed(one, b);
    DepartRuns(two, b);
    RunAppend(INIT, [SpawnWs] + claimA + claimB, depart);
    var acts := [SpawnWs] + claimA + claimB + depart;
    assert RunFrom(INIT, acts) == Some(Single(Released(two, b), Done));
  }

  // ---------------------------------------------------------------- what becomes of a leaked slot

  predicate Orphan(s: State, node: Node) {
    node in s.shared.ws && !HasOwner(s, node)
  }

  /** A WebRTC channel of `node` opens. */
  predicate OpensOver(s: State, act: Action, node: Node) {
    act.Run? && act.inp.Open? && act.tid < |s.threads| && s.threads[act.tid].pc == LinkStart(node) &&
    s.threads[act.tid].driver.Some? && s.threads[act.tid].driver.value.kind.RtcDriver?
  }

  /** A thread comes to hold a peer only by claiming its slot. */
  lemma HeldComesFromClaims(sh: Shared, th: Thread, inp: Input)
    requires Advance(sh, th, inp).Some? && Advance(sh, th, inp).value.shared.ws == sh.ws
    ensures var e := Advance(sh, th, inp).value;
            Held(e.pc).Some? ==> Held(e.pc) == Held(th.pc) || (inp.Open? && th.pc == LinkStart(Held(e.pc).value))
  {
    var e := Advance(sh, th, inp).value;
    if e.pc.Emit? {
      assert Held(e.pc) == Held(e.pc.next);
    }
  }

  /** Nobody adopts or removes a leaked slot but a WebRTC channel that opens over it. */
  lemma OrphanStepExactly(s: State, act: Action, node: Node)
    requires Ticketed(s) && Room(s.issued) && Orphan(s, node) && Next(s, act).Some?
    ensures var u := Next(s, act).value;
            Orphan(u, node) && u.shared.ws[node] == s.shared.ws[node] <==> !OpensOver(s, act, node)
  {
    var u := Next(s, act).value;
    if OpensOver(s, act, node) {
      assert Owner(u, node, act.tid);
    } else {
      if act.Run? {
        AdvanceSlots(s.shared, s.threads[act.tid], act.inp);
        assert !Owner(s, node, act.tid);
        if u.shared.ws == s.shared.ws {
          HeldComesFromClaims(s.shared, s.threads[act.tid], act.inp);
        }
      }
      forall t | 0 <= t < |u.threads|
        ensures !Owner(u, node, t)
      {
        assert t < |s.threads| ==> !Owner(s, node, t);
      }
    }
  }
}
