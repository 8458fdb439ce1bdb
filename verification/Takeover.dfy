/** What happens when a WebRTC link takes over the slot of another datagram link. */
module Takeover {
  import opened Base
  import opened ConnIds
  import opened LiveTables
  import opened Registry
  import opened SlotOwnership
  import opened LinkLiveness

  // ---------------------------------------------------------------- every takeover

  /** Ordinary steps a replaced driver takes up to and including the removal of its peer's entry. */
  function DropRank(pc: Pc): nat {
    match pc
    case LinkCheck(_) => 4
    case LinkLoop(_) => 3
    case LinkExit(_) => 2
    case LinkDrop(_) => 1
    case Emit(_, next) => 1 + DropRank(next)
    case _ => 0
  }

  /** Thread `p` is a datagram link of `node` that has lost its slot and not yet dropped its peer. */
  predicate Replaced(s: State, node: Node, p: nat) {
    p < |s.threads| && s.threads[p].driver.Some? && !Owns(s.shared.ws, node, s.threads[p].driver.value.Id()) &&
    StillToDrop(s.threads[p].pc, node)
  }

  predicate StillToDrop(pc: Pc, node: Node) {
    match pc
    case LinkCheck(n) => n == node
    case LinkLoop(n) => n == node
    case LinkExit(n) => n == node
    case LinkDrop(n) => n == node
    case Emit(_, next) => StillToDrop(next, node)
    case _ => false
  }

  /** A step of a replaced driver brings it nearer to dropping its peer, or is that. */
  lemma ReplacedOwnStep(s: State, p: nat, inp: Input, node: Node)
    requires Next(s, Run(p, inp)).Some? && Replaced(s, node, p) && Drops(s.threads[p].pc) != Some(node)
    ensures var u := Next(s, Run(p, inp)).value;
            Replaced(u, node, p) &&
            DropRank(u.threads[p].pc) + (if inp.Go? then 1 else 0) <= DropRank(s.threads[p].pc)
  {
  }

  /** Nobody gives a replaced driver its slot back. */
  lemma ReplacedElsewhere(s: State, act: Action, node: Node, p: nat)
    requires Ticketed(s) && Room(s.issued) && Next(s, act).Some? && Replaced(s, node, p) && !(act.Run? && act.tid == p)
    ensures Replaced(Next(s, act).value, node, p) && Next(s, act).value.threads[p] == s.threads[p]
  {
    if act.Run? {
      AdvanceSlots(s.shared, s.threads[act.tid], act.inp);
      if Owns(Next(s, act).value.shared.ws, node, s.threads[p].driver.value.Id()) {
        SameIdSameThread(s, p, act.tid);
      }
    }
  }

  /** A takeover undercuts the new link: once a link of `node` is established while a replaced driver
      has still to drop the peer, in every run that gives that driver its few steps and does not end
      the new link otherwise, somebody removes the live entry under the new link. (A replaced driver
      that drops the peer before the new link marks it undercuts nothing.) */
  lemma {:induction false} TakeoverIsUndercut(s: State, acts: seq<Action>, node: Node, p: nat, r: nat)
    requires Ticketed(s) && RunFrom(s, acts).Some? && Room(RunFrom(s, acts).value.issued) && Backed(s, node)
    requires Replaced(s, node, p) && Serves(s, node, r) && p != r
    requires Turns(acts, p) >= DropRank(s.threads[p].pc) && !EverEnds(s, acts, node, r)
    ensures EverUndercut(s, acts, node)
    decreases |acts|
  {
    RoomBefore(s, acts);
    assert Served(s, node);
    if !Undercuts(s, acts[0], node) {
      var u := Next(s, acts[0]).value;
      TicketedStep(s, acts[0]);
      BackedStepExactly(s, acts[0], node);
      LinkStepExactly(s, acts[0], node, r);
      if acts[0].Run? && acts[0].tid == p {
        ReplacedOwnStep(s, p, acts[0].inp, node);
      } else {
        ReplacedElsewhere(s, acts[0], node, p);
      }
      TakeoverIsUndercut(u, acts[1..], node, p, r);
    }
  }

  // ---------------------------------------------------------------- two runs

  /** A punch driver and a WebRTC driver for the same peer. */
  function Pair(sh: Shared, punch: Pc, rtc: Pc): State {
    State(sh, [Thread(Some(Driver(PunchDriver, 0)), punch), Thread(Some(Driver(RtcDriver, 0)), rtc)], Issued(0, 1, 1))
  }

  lemma PunchStep(sh: Shared, punch: Pc, rtc: Pc, e: Effect)
    requires Advance(sh, Thread(Some(Driver(PunchDriver, 0)), punch), GO) == Some(e)
    ensures Next(Pair(sh, punch, rtc), Run(0, GO)) == Some(Pair(e.shared, e.pc, rtc))
  {
    var s := Pair(sh, punch, rtc);
    assert s.threads[0 := s.threads[0].(pc := e.pc)] == Pair(e.shared, e.pc, rtc).threads;
  }

  lemma RtcStep(sh: Shared, punch: Pc, rtc: Pc, inp: Input, e: Effect)
    requires Advance(sh, Thread(Some(Driver(RtcDriver, 0)), rtc), inp) == Some(e)
    ensures Next(Pair(sh, punch, rtc), Run(1, inp)) == Some(Pair(e.shared, punch, e.pc))
  {
    var s := Pair(sh, punch, rtc);
    assert s.threads[1 := s.threads[1].(pc := e.pc)] == Pair(e.shared, punch, e.pc).threads;
  }

  function StartActions(n: Node): seq<Action> {
    [SpawnPunch(n), SpawnRtc(n)]
  }

  const REGISTER_ACTIONS: seq<Action> := [Run(0, GO), Run(0, GO), Run(0, GO)]

  function UpActions(n: Node): seq<Action> {
    StartActions(n) + REGISTER_ACTIONS
  }

  const OPEN_ACTIONS: seq<Action> := [Run(1, Open), Run(1, GO)]
  const PUNCH_DOWN: seq<Action> := [Run(0, GO), Run(0, GO), Run(0, GO), Run(0, GO)]
  const RTC_DOWN: seq<Action> := [Run(1, GO), Run(1, GO), Run(1, GO), Run(1, GO)]

  function WhenUp(n: Node): Shared {
    Shared(map[n := 1_000_000], map[n := P2pConn(Punch, 0, None)], [PeerConnected(n, Punch)])
  }

  lemma BothStart(n: Node)
    ensures RunFrom(INIT, StartActions(n)) == Some(Pair(INIT.shared, LinkStart(n), LinkStart(n)))
  {
    var s := Pair(INIT.shared, LinkStart(n), LinkStart(n));
    var one := State(INIT.shared, [s.threads[0]], Issued(0, 1, 0));
    assert INIT.threads + one.threads == one.threads;
    assert one.threads + [s.threads[1]] == s.threads;
    RunSteps([INIT, one, s], StartActions(n));
  }

  lemma PunchRegisters(n: Node)
    ensures RunFrom(Pair(INIT.shared, LinkStart(n), LinkStart(n)), REGISTER_ACTIONS)
              == Some(Pair(WhenUp(n), LinkLoop(n), LinkStart(n)))
  {
    var up, start := PeerConnected(n, Punch), LinkStart(n);
    var a := Shared(map[n := 1_000_000], map[], []);
    var b := a.(p2p := map[n := P2pConn(Punch, 0, None)]);
    PunchStep(INIT.shared, start, start, Effect(a, LinkMark(n)));
    PunchStep(a, LinkMark(n), start, Effect(b, Emit(up, LinkLoop(n))));
    assert b.emitted + [up] == [up];
    PunchStep(b, Emit(up, LinkLoop(n)), start, Effect(WhenUp(n), LinkLoop(n)));
    RunSteps([Pair(INIT.shared, start, start), Pair(a, LinkMark(n), start), Pair(b, Emit(up, LinkLoop(n)), start),
              Pair(WhenUp(n), LinkLoop(n), start)],
             REGISTER_ACTIONS);
  }

  /** Both drivers start and the punched link comes up. */
  lemma PunchComesUp(n: Node)
    ensures RunFrom(INIT, UpActions(n)) == Some(Pair(WhenUp(n), LinkLoop(n), LinkStart(n)))
  {
    BothStart(n);
    PunchRegisters(n);
    RunAppend(INIT, StartActions(n), REGISTER_ACTIONS);
  }

  /** The data channel opens over an established punched link. */
  lemma ChannelOpens(n: Node, sh: Shared)
    requires sh.ws == map[n := 1_000_000] && sh.p2p == map[n := P2pConn(Punch, 0, None)]
    ensures RunFrom(Pair(sh, LinkLoop(n), LinkStart(n)), OPEN_ACTIONS)
              == Some(Pair(sh.(ws := map[n := 2_000_000]), LinkLoop(n), LinkLoop(n)))
  {
    var d := sh.(ws := map[n := 2_000_000]);
    assert sh.ws[n := 2_000_000] == d.ws && Mark(sh.p2p, n, WebRtc, None, 0) == sh.p2p;
    RtcStep(sh, LinkLoop(n), LinkStart(n), Open, Effect(d, LinkMark(n)));
    RtcStep(d, LinkLoop(n), LinkMark(n), GO, Effect(d, LinkLoop(n)));
    RunSteps([Pair(sh, LinkLoop(n), LinkStart(n)), Pair(d, LinkLoop(n), LinkMark(n)), Pair(d, LinkLoop(n), LinkLoop(n))],
             OPEN_ACTIONS);
  }

  /** The replaced driver notices and drops the peer's live entry. */
  lemma PunchComesDown(n: Node, sh: Shared, rtc: Pc)
    requires sh.ws == map[n := 2_000_000] && n in sh.p2p
    ensures RunFrom(Pair(sh, LinkLoop(n), rtc), PUNCH_DOWN)
              == Some(Pair(Shared(sh.ws, sh.p2p - {n}, sh.emitted + [PeerDisconnected(n)]), Done, rtc))
  {
    var down := PeerDisconnected(n);
    var a := sh.(p2p := sh.p2p - {n});
    var b := a.(emitted := sh.emitted + [down]);
    PunchStep(sh, LinkLoop(n), rtc, Effect(sh, LinkExit(n)));
    PunchStep(sh, LinkExit(n), rtc, Effect(sh, LinkDrop(n)));
    PunchStep(sh, LinkDrop(n), rtc, Effect(a, Emit(down, Done)));
    PunchStep(a, Emit(down, Done), rtc, Effect(b, Done));
    RunSteps([Pair(sh, LinkLoop(n), rtc), Pair(sh, LinkExit(n), rtc), Pair(sh, LinkDrop(n), rtc),
              Pair(a, Emit(down, Done), rtc), Pair(b, Done, rtc)],
             PUNCH_DOWN);
  }

  /** The new driver finds its peer gone and stops. */
  lemma RtcComesDown(n: Node, sh: Shared)
    requires sh.ws == map[n := 2_000_000] && n !in sh.p2p
    ensures RunFrom(Pair(sh, Done, LinkLoop(n)), RTC_DOWN) == Some(Pair(sh.(ws := map[]), Done, Done))
  {
    var c := sh.(ws := map[]);
    assert sh.ws - {n} == c.ws && c.p2p - {n} == c.p2p;
    RtcStep(sh, Done, LinkLoop(n), GO, Effect(sh, LinkCheck(n)));
    RtcStep(sh, Done, LinkCheck(n), GO, Effect(sh, LinkExit(n)));
    RtcStep(sh, Done, LinkExit(n), GO, Effect(c, LinkDrop(n)));
    RtcStep(c, Done, LinkDrop(n), GO, Effect(c, Done));
    RunSteps([Pair(sh, Done, LinkLoop(n)), Pair(sh, Done, LinkCheck(n)), Pair(sh, Done, LinkExit(n)),
              Pair(c, Done, LinkDrop(n)), Pair(c, Done, Done)],
             RTC_DOWN);
  }

  lemma WholeRun(n: Node)
    ensures RunFrom(INIT, UpActions(n) + OPEN_ACTIONS + PUNCH_DOWN + RTC_DOWN)
              == Some(Pair(Shared(map[], map[], [PeerConnected(n, Punch)] + [PeerDisconnected(n)]), Done, Done))
  {
    var sh := WhenUp(n);
    var open := sh.(ws := map[n := 2_000_000]);
    var gone := Shared(open.ws, sh.p2p - {n}, sh.emitted + [PeerDisconnected(n)]);
    PunchComesUp(n);
    ChannelOpens(n, sh);
    RunAppend(INIT, UpActions(n), OPEN_ACTIONS);
    PunchComesDown(n, open, LinkLoop(n));
    RunAppend(INIT, UpActions(n) + OPEN_ACTIONS, PUNCH_DOWN);
    RtcComesDown(n, gone);
    RunAppend(INIT, UpActions(n) + OPEN_ACTIONS + PUNCH_DOWN, RTC_DOWN);
    assert gone.p2p == map[];
  }

  /** Nothing fails, is closed, says goodbye or goes stale in the run. */
  predicate Undisturbed(acts: seq<Action>) {
    forall i :: 0 <= i < |acts| ==>
      !acts[i].SpawnBye? && !acts[i].SpawnBeat? && (acts[i].Run? ==> !acts[i].inp.Leave? && !acts[i].inp.Snapshot?)
  }

  /** A newer link that wins the slot need not survive winning it: there is a run in which nothing
      whatever goes wrong and yet both drivers end with the peer disconnected, because the replaced
      driver removes the live entry the new link depends on. */
  lemma NewerLinkMayFall(n: Node)
    ensures exists acts :: Undisturbed(acts) && RunFrom(INIT, acts).Some? &&
              Run(1, Open) in acts &&
              var s := RunFrom(INIT, acts).value;
              s.shared.ws == map[] && s.shared.p2p == map[] && forall t :: 0 <= t < |s.threads| ==> s.threads[t].pc.Done?
  {
    var acts := UpActions(n) + OPEN_ACTIONS + PUNCH_DOWN + RTC_DOWN;
    WholeRun(n);
    assert acts[5] == Run(1, Open);
    assert Undisturbed(acts);
  }

  const OPEN_ONLY: seq<Action> := [Run(1, Open)]
  const MARK_LATE: seq<Action> := [Run(1, GO), Run(1, GO)]

  lemma ChannelJustOpens(n: Node, sh: Shared)
    requires sh.ws == map[n := 1_000_000]
    ensures RunFrom(Pair(sh, LinkLoop(n), LinkStart(n)), OPEN_ONLY)
              == Some(Pair(sh.(ws := map[n := 2_000_000]), LinkLoop(n), LinkMark(n)))
  {
    var a := sh.(ws := map[n := 2_000_000]);
    assert sh.ws[n := 2_000_000] == a.ws;
    RtcStep(sh, LinkLoop(n), LinkStart(n), Open, Effect(a, LinkMark(n)));
    RunSteps([Pair(sh, LinkLoop(n), LinkStart(n)), Pair(a, LinkLoop(n), LinkMark(n))], OPEN_ONLY);
  }

  function Settled(n: Node, sh: Shared): Shared {
    sh.(p2p := sh.p2p[n := P2pConn(WebRtc, 0, None)], emitted := sh.emitted + [PeerConnected(n, WebRtc)])
  }

  lemma MarksLate(n: Node, sh: Shared)
    requires n !in sh.p2p
    ensures RunFrom(Pair(sh, Done, LinkMark(n)), MARK_LATE) == Some(Pair(Settled(n, sh), Done, LinkLoop(n)))
  {
    var up := PeerConnected(n, WebRtc);
    var a := sh.(p2p := sh.p2p[n := P2pConn(WebRtc, 0, None)]);
    RtcStep(sh, Done, LinkMark(n), GO, Effect(a, Emit(up, LinkLoop(n))));
    RtcStep(a, Done, Emit(up, LinkLoop(n)), GO, Effect(Settled(n, sh), LinkLoop(n)));
    RunSteps([Pair(sh, Done, LinkMark(n)), Pair(a, Done, Emit(up, LinkLoop(n))), Pair(Settled(n, sh), Done, LinkLoop(n))],
             MARK_LATE);
  }

  /** The channel opens, the replaced driver drops the peer, and only then the new link marks it. */
  lemma WholeLateRun(n: Node) returns (sh: Shared)
    ensures RunFrom(INIT, UpActions(n) + OPEN_ONLY + PUNCH_DOWN + MARK_LATE) == Some(Pair(sh, Done, LinkLoop(n)))
    ensures sh.ws == map[n := 2_000_000] && n in sh.p2p
  {
    var up := WhenUp(n);
    var open := up.(ws := map[n := 2_000_000]);
    var gone := Shared(open.ws, up.p2p - {n}, up.emitted + [PeerDisconnected(n)]);
    PunchComesUp(n);
    ChannelJustOpens(n, up);
    RunAppend(INIT, UpActions(n), OPEN_ONLY);
    PunchComesDown(n, open, LinkMark(n));
    RunAppend(INIT, UpActions(n) + OPEN_ONLY, PUNCH_DOWN);
    MarksLate(n, gone);
    RunAppend(INIT, UpActions(n) + OPEN_ONLY + PUNCH_DOWN, MARK_LATE);
    sh := Settled(n, gone);
  }

  /** It may also survive: another run of the same two drivers, as undisturbed, ends with the replaced
      driver gone and the new link established, its peer live. */
  lemma NewerLinkMaySurvive(n: Node)
    ensures exists acts :: Undisturbed(acts) && RunFrom(INIT, acts).Some? &&
              Run(1, Open) in acts &&
              var s := RunFrom(INIT, acts).value;
              |s.threads| == 2 && s.threads[0].pc.Done? && Serves(s, n, 1) && n in s.shared.p2p
  {
    var acts := UpActions(n) + OPEN_ONLY + PUNCH_DOWN + MARK_LATE;
    var sh := WholeLateRun(n);
    assert acts[5] == Run(1, Open);
    assert Undisturbed(acts);
    assert Serves(Pair(sh, Done, LinkLoop(n)), n, 1);
  }
}
