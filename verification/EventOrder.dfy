/** The order of connection events: when the last event emitted tells the truth. */
module EventOrder {
  import opened Base
  import opened ConnIds
  import opened LiveTables
  import opened Registry
  import opened EventConservation

  /** What the last event about `node` says; a peer never mentioned is not connected. */
  predicate SaysConnected(events: seq<CoreEvent>, node: Node) {
    if events == [] then false
    else
      var last := events[|events| - 1];
      if Weight(last, node) == 0 then SaysConnected(events[..|events| - 1], node) else last.PeerConnected?
  }

  /** The thread is about to emit an event about `node`. */
  predicate About(pc: Pc, node: Node) {
    pc.Emit? && Weight(pc.event, node) != 0
  }

  predicate Announcing(s: State, node: Node) {
    exists i :: 0 <= i < |s.threads| && About(s.threads[i].pc, node)
  }

  /** At most one event about `node` is on its way, and the newest word on `node`, that event or
      else the last one emitted, agrees with the live table. */
  predicate Orderly(s: State, node: Node) {
    (forall i, j :: 0 <= i < j < |s.threads| ==> !(About(s.threads[i].pc, node) && About(s.threads[j].pc, node))) &&
    (forall i :: 0 <= i < |s.threads| && About(s.threads[i].pc, node) ==>
      (s.threads[i].pc.event.PeerConnected? <==> node in s.shared.p2p)) &&
    (!Announcing(s, node) ==> (SaysConnected(s.shared.emitted, node) <==> node in s.shared.p2p))
  }

  /** A thread announces one change at a time. */
  predicate OneEach(s: State) {
    forall i :: 0 <= i < |s.threads| && s.threads[i].pc.Emit? ==> !s.threads[i].pc.next.Emit?
  }

  lemma OneEachStep(s: State, act: Action)
    requires OneEach(s) && Next(s, act).Some?
    ensures OneEach(Next(s, act).value)
  {
  }

  /** The step adds or removes the live entry of `node` while an earlier change of it is still to be
      announced. */
  predicate Overtakes(s: State, act: Action, node: Node) {
    act.Run? && act.tid < |s.threads| && Announcing(s, node) &&
    var pc := s.threads[act.tid].pc;
    if node in s.shared.p2p then Drops(pc) == Some(node) else Marks(pc) == Some(node)
  }

  lemma SaysAppend(events: seq<CoreEvent>, e: CoreEvent, node: Node)
    ensures SaysConnected(events + [e], node) ==
              if Weight(e, node) == 0 then SaysConnected(events, node) else e.PeerConnected?
  {
    assert (events + [e])[..|events|] == events;
  }

  /** What a step of a thread does to `node`: nothing; announce a change; or change the entry and
      then have that to announce. */
  lemma AdvanceOrder(sh: Shared, th: Thread, inp: Input, node: Node)
    requires Advance(sh, th, inp).Some? && (th.pc.Emit? ==> !th.pc.next.Emit?)
    ensures var e := Advance(sh, th, inp).value;
            if About(th.pc, node) then
              e.shared.p2p == sh.p2p && !About(e.pc, node) &&
              SaysConnected(e.shared.emitted, node) == th.pc.event.PeerConnected?
            else
              SaysConnected(e.shared.emitted, node) == SaysConnected(sh.emitted, node) &&
              (About(e.pc, node) <==> if node in sh.p2p then Drops(th.pc) == Some(node) else Marks(th.pc) == Some(node)) &&
              (node in e.shared.p2p <==> if About(e.pc, node) then node !in sh.p2p else node in sh.p2p) &&
              (About(e.pc, node) ==> (e.pc.event.PeerConnected? <==> node in e.shared.p2p))
  {
    if th.pc.Emit? {
      SaysAppend(sh.emitted, th.pc.event, node);
    }
  }

  /** The order of events, step by step: from an orderly state a step leads to another exactly when
      it does not change the live entry before the change before it is announced. */
  lemma OrderlyStepExactly(s: State, act: Action, node: Node)
    requires OneEach(s) && Orderly(s, node) && Next(s, act).Some?
    ensures Orderly(Next(s, act).value, node) <==> !Overtakes(s, act, node)
  {
    if act.Run? {
      OrderlyRun(s, act.tid, act.inp, node);
    } else {
      OrderlySpawn(s, act, node);
    }
  }

  lemma OrderlySpawn(s: State, act: Action, node: Node)
    requires Orderly(s, node) && !act.Run?
    ensures Orderly(Next(s, act).value, node)
  {
    var u := Next(s, act).value;
    assert forall i :: 0 <= i < |s.threads| ==> u.threads[i] == s.threads[i];
    assert u.shared == s.shared && !About(u.threads[|s.threads|].pc, node);
    if Announcing(s, node) {
      var i :| 0 <= i < |s.threads| && About(s.threads[i].pc, node);
      assert About(u.threads[i].pc, node);
    }
  }

  lemma OrderlyRun(s: State, tid: nat, inp: Input, node: Node)
    requires OneEach(s) && Orderly(s, node) && Next(s, Run(tid, inp)).Some?
    ensures Orderly(Next(s, Run(tid, inp)).value, node) <==> !Overtakes(s, Run(tid, inp), node)
  {
    var u := Next(s, Run(tid, inp)).value;
    AdvanceOrder(s.shared, s.threads[tid], inp, node);
    assert forall i :: 0 <= i < |s.threads| && i != tid ==> u.threads[i] == s.threads[i];
    if Announcing(s, node) {
      var i :| 0 <= i < |s.threads| && About(s.threads[i].pc, node);
      if i == tid {
        assert !Announcing(u, node);
      } else {
        assert About(u.threads[i].pc, node) && Announcing(u, node);
      }
    } else if About(u.threads[tid].pc, node) {
      assert Announcing(u, node);
    }
  }

  predicate NeverOvertakes(s: State, acts: seq<Action>, node: Node)
    decreases |acts|
  {
    acts == [] ||
    (!Overtakes(s, acts[0], node) && (Next(s, acts[0]).Some? ==> NeverOvertakes(Next(s, acts[0]).value, acts[1..], node)))
  }

  lemma {:induction false} OrderlyThroughout(s: State, acts: seq<Action>, node: Node)
    requires OneEach(s) && Orderly(s, node) && RunFrom(s, acts).Some? && NeverOvertakes(s, acts, node)
    ensures Orderly(RunFrom(s, acts).value, node)
    decreases |acts|
  {
    if acts != [] {
      OneEachStep(s, acts[0]);
      OrderlyStepExactly(s, acts[0], node);
      OrderlyThroughout(Next(s, acts[0]).value, acts[1..], node);
    }
  }

  /** In every run in which no change of a peer's entry overtakes the announcement of the one before,
      whenever nothing about the peer is pending the last event about it says whether it is live. */
  lemma LastEventIsTrue(acts: seq<Action>, node: Node)
    requires RunFrom(INIT, acts).Some? && NeverOvertakes(INIT, acts, node)
    requires !Announcing(RunFrom(INIT, acts).value, node)
    ensures var s := RunFrom(INIT, acts).value;
            SaysConnected(s.shared.emitted, node) <==> node in s.shared.p2p
  {
    OrderlyThroughout(INIT, acts, node);
  }

  // ---------------------------------------------------------------- what an overtaking leads to

  /** Nothing happens but that threads emit what they have to emit. */
  predicate OnlyAnnounces(s: State, acts: seq<Action>)
    decreases |acts|
  {
    acts == [] ||
    (acts[0].Run? && acts[0].tid < |s.threads| && s.threads[acts[0].tid].pc.Emit? &&
     (Next(s, acts[0]).Some? ==> OnlyAnnounces(Next(s, acts[0]).value, acts[1..])))
  }

  /** The run led to a state in which nothing about `node` is pending and the last event about it is
      false. */
  predicate Misleads(r: Option<State>, node: Node) {
    r.Some? && !Announcing(r.value, node) &&
    SaysConnected(r.value.shared.emitted, node) != (node in r.value.shared.p2p)
  }

  /** Merely announcing what is pending can end that way. */
  ghost predicate CanMislead(s: State, node: Node) {
    exists acts :: OnlyAnnounces(s, acts) && Misleads(RunFrom(s, acts), node)
  }

  lemma {:induction false} AnnouncingNeverOvertakes(s: State, acts: seq<Action>, node: Node)
    requires OnlyAnnounces(s, acts)
    ensures NeverOvertakes(s, acts, node)
    decreases |acts|
  {
    if acts != [] && Next(s, acts[0]).Some? {
      AnnouncingNeverOvertakes(Next(s, acts[0]).value, acts[1..], node);
    }
  }

  /** The state after thread `i` has emitted what it had to. */
  lemma EmitStep(s: State, i: nat, node: Node)
    requires i < |s.threads| && s.threads[i].pc.Emit? && OneEach(s)
    ensures var n := Next(s, Run(i, GO));
            n.Some? && OneEach(n.value) && n.value.shared.p2p == s.shared.p2p &&
            n.value.threads == s.threads[i := s.threads[i].(pc := s.threads[i].pc.next)] &&
            !About(n.value.threads[i].pc, node) &&
            SaysConnected(n.value.shared.emitted, node) ==
              if About(s.threads[i].pc, node) then s.threads[i].pc.event.PeerConnected?
              else SaysConnected(s.shared.emitted, node)
  {
    SaysAppend(s.shared.emitted, s.threads[i].pc.event, node);
  }

  /** The overtaking change is announced first, the overtaken one after it. */
  lemma OvertakingMisleads(s: State, act: Action, node: Node) returns (acts: seq<Action>)
    requires OneEach(s) && Orderly(s, node) && Next(s, act).Some? && Overtakes(s, act, node)
    ensures OnlyAnnounces(Next(s, act).value, acts) && Misleads(RunFrom(Next(s, act).value, acts), node)
  {
    var u := Next(s, act).value;
    var i :| 0 <= i < |s.threads| && About(s.threads[i].pc, node);
    AdvanceOrder(s.shared, s.threads[act.tid], act.inp, node);
    OneEachStep(s, act);
    EmitStep(u, act.tid, node);
    var v := Next(u, Run(act.tid, GO)).value;
    EmitStep(v, i, node);
    var w := Next(v, Run(i, GO)).value;
    acts := [Run(act.tid, GO), Run(i, GO)];
    RunSteps([u, v, w], acts);
    assert acts[1..] == [Run(i, GO)] && acts[1..][1..] == [];
    forall j | 0 <= j < |w.threads|
      ensures !About(w.threads[j].pc, node)
    {
      assert j != act.tid && j != i ==> w.threads[j] == s.threads[j];
    }
  }

  /** Overtaking is exactly what can mislead: from an orderly state, after a step, merely announcing
      what is pending can end with nothing pending and a false last event if and only if the step
      overtook an earlier announcement. */
  lemma OvertakingExactly(s: State, act: Action, node: Node)
    requires OneEach(s) && Orderly(s, node) && Next(s, act).Some?
    ensures Overtakes(s, act, node) <==> CanMislead(Next(s, act).value, node)
  {
    var u := Next(s, act).value;
    if Overtakes(s, act, node) {
      var acts := OvertakingMisleads(s, act, node);
    } else {
      OneEachStep(s, act);
      OrderlyStepExactly(s, act, node);
      forall acts | OnlyAnnounces(u, acts)
        ensures !Misleads(RunFrom(u, acts), node)
      {
        AnnouncingNeverOvertakes(u, acts, node);
        if RunFrom(u, acts).Some? {
          OrderlyThroughout(u, acts, node);
        }
      }
    }
  }

  // ---------------------------------------------------------------- an overtaken announcement

  /** Two pings of a peer and one goodbye, none of them handled yet. */
  function ThreeHandlers(n: Node): State {
    var ping, bye := Thread(None, PingHandler(n)), Thread(None, ByeHandler(n));
    State(Shared(map[], map[], []), [ping, bye, ping], Issued(0, 0, 0))
  }

  lemma HandlersArrive(n: Node)
    ensures RunFrom(INIT, [SpawnPing(n), SpawnBye(n), SpawnPing(n)]) == Some(ThreeHandlers(n))
  {
    var ping, bye := Thread(None, PingHandler(n)), Thread(None, ByeHandler(n));
    var s := ThreeHandlers(n);
    assert INIT.threads + [ping] == [ping] && [ping] + [bye] == [ping, bye] && [ping, bye] + [ping] == s.threads;
    RunSteps([INIT, s.(threads := [ping]), s.(threads := [ping, bye]), s], [SpawnPing(n), SpawnBye(n), SpawnPing(n)]);
  }

  /** The order of emissions is not the order of the table's changes: there is a run that ends with
      nothing pending and the peer live, yet the last event emitted is its disconnection. */
  lemma LastEventMayBeStale(n: Node)
    requires n != []
    ensures exists acts :: RunFrom(INIT, acts).Some? &&
              var s := RunFrom(INIT, acts).value;
              n in s.shared.p2p && (forall i :: 0 <= i < |s.threads| ==> s.threads[i].pc.Done?) &&
              |s.shared.emitted| > 0 && s.shared.emitted[|s.shared.emitted| - 1] == PeerDisconnected(n)
  {
    var go := Go(0, None);
    var arrive := [SpawnPing(n), SpawnBye(n), SpawnPing(n)];
    var handle := [Run(0, go), Run(0, go), Run(1, go), Run(2, go), Run(2, go), Run(1, go)];
    HandlersArrive(n);
    DisconnectionLast(n, handle);
    RunAppend(INIT, arrive, handle);
  }

  lemma DisconnectionLast(n: Node, acts: seq<Action>)
    requires n != []
    requires var go := Go(0, None); acts == [Run(0, go), Run(0, go), Run(1, go), Run(2, go), Run(2, go), Run(1, go)]
    ensures var done := Thread(None, Done);
            var up := PeerConnected(n, Udp);
            var sh := Shared(map[], map[n := P2pConn(Udp, 0, None)], [up, up, PeerDisconnected(n)]);
            RunFrom(ThreeHandlers(n), acts) == Some(State(sh, [done, done, done], Issued(0, 0, 0)))
  {
    var up, down := PeerConnected(n, Udp), PeerDisconnected(n);
    var live, none: Conns := map[n := P2pConn(Udp, 0, None)], map[];
    var ping, bye, done := Thread(None, PingHandler(n)), Thread(None, ByeHandler(n)), Thread(None, Done);
    var upping, downing := Thread(None, Emit(up, Done)), Thread(None, Emit(down, Done));
    var s := ThreeHandlers(n);
    var s1 := State(Shared(map[], live, []), [upping, bye, ping], s.issued);
    var s2 := State(Shared(map[], live, [up]), [done, bye, ping], s.issued);
    var s3 := State(Shared(map[], none, [up]), [done, downing, ping], s.issued);
    var s4 := State(Shared(map[], live, [up]), [done, downing, upping], s.issued);
    var s5 := State(Shared(map[], live, [up, up]), [done, downing, done], s.issued);
    var s6 := State(Shared(map[], live, [up, up, down]), [done, done, done], s.issued);
    assert s.threads[0 := upping] == s1.threads && s1.threads[0 := done] == s2.threads;
    assert s2.threads[1 := downing] == s3.threads;
    assert s3.threads[2 := upping] == s4.threads;
    assert s4.threads[2 := done] == s5.threads && s5.threads[1 := done] == s6.threads;
    assert INIT.shared.emitted + [up] == [up] && [up] + [up] == [up, up] && [up, up] + [down] == [up, up, down];
    assert live - {n} == none;
    RunSteps([s, s1, s2, s3, s4, s5, s6], acts);
  }
}
