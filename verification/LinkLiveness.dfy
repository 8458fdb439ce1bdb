/** When an established link finds its peer in the live table, and when it is undercut: the live
    entry is removed under a driver that still owns the peer's slot. */
module LinkLiveness {
  import opened Base
  import opened ConnIds
  import opened Registry
  import opened SlotOwnership

  /** The driver has marked `node` live and has not left its loop. */
  predicate PastMark(pc: Pc, node: Node) {
    match pc
    case WsLoop(peer) => peer == Some(node)
    case LinkLoop(n) => n == node
    case LinkCheck(n) => n == node
    case Emit(_, next) => PastMark(next, node)
    case _ => false
  }

  /** Thread `t` is the established link of `node`. */
  predicate Serves(s: State, node: Node, t: nat) {
    Owner(s, node, t) && PastMark(s.threads[t].pc, node)
  }

  predicate Served(s: State, node: Node) {
    exists t :: 0 <= t < |s.threads| && Serves(s, node, t)
  }

  /** An established link finds its peer in the live table. */
  predicate Backed(s: State, node: Node) {
    Served(s, node) ==> node in s.shared.p2p
  }

  /** The step removes the live entry of `node` under an established link. */
  predicate Undercuts(s: State, act: Action, node: Node) {
    act.Run? && act.tid < |s.threads| && Drops(s.threads[act.tid].pc) == Some(node) && Served(s, node)
  }

  lemma {:induction false} PastMarkHolds(pc: Pc, node: Node)
    requires PastMark(pc, node)
    ensures Held(pc) == Some(node)
  {
    if pc.Emit? {
      PastMarkHolds(pc.next, node);
    }
  }

  /** What a step of a thread does to the live table. */
  lemma AdvanceLive(sh: Shared, th: Thread, inp: Input, node: Node)
    requires Advance(sh, th, inp).Some?
    ensures var e := Advance(sh, th, inp).value;
            (node in e.shared.p2p <==> (node in sh.p2p || Marks(th.pc) == Some(node)) && Drops(th.pc) != Some(node)) &&
            (Drops(th.pc).Some? ==> e.shared.ws == sh.ws && !PastMark(th.pc, node) && !PastMark(e.pc, node)) &&
            (PastMark(e.pc, node) ==> e.shared.ws == sh.ws && (PastMark(th.pc, node) || node in e.shared.p2p))
  {
    var e := Advance(sh, th, inp).value;
    if e.pc.Emit? {
      assert PastMark(e.pc, node) == PastMark(e.pc.next, node);
    }
  }

  /** A step makes no thread but the acting one an established link. */
  lemma ServedBefore(s: State, tid: nat, inp: Input, node: Node, t: nat)
    requires Ticketed(s) && Room(s.issued) && Next(s, Run(tid, inp)).Some? && t != tid
    requires Serves(Next(s, Run(tid, inp)).value, node, t)
    ensures Serves(s, node, t)
  {
    var u := Next(s, Run(tid, inp)).value;
    AdvanceSlots(s.shared, s.threads[tid], inp);
    if !Owner(s, node, t) {
      SameIdSameThread(s, t, tid);
    }
  }

  lemma ActorBacked(s: State, tid: nat, inp: Input, node: Node)
    requires Backed(s, node) && Next(s, Run(tid, inp)).Some? && Drops(s.threads[tid].pc) != Some(node)
    requires Serves(Next(s, Run(tid, inp)).value, node, tid)
    ensures node in Next(s, Run(tid, inp)).value.shared.p2p
  {
    var th := s.threads[tid];
    AdvanceLive(s.shared, th, inp, node);
    if PastMark(th.pc, node) {
      PastMarkHolds(th.pc, node);
      assert Serves(s, node, tid);
      assert Served(s, node);
    }
  }

  lemma BackedAfterRun(s: State, tid: nat, inp: Input, node: Node)
    requires Ticketed(s) && Room(s.issued) && Backed(s, node)
    requires Next(s, Run(tid, inp)).Some? && !Undercuts(s, Run(tid, inp), node)
    ensures Backed(Next(s, Run(tid, inp)).value, node)
  {
    var u := Next(s, Run(tid, inp)).value;
    if Served(u, node) {
      var t :| 0 <= t < |u.threads| && Serves(u, node, t);
      AdvanceLive(s.shared, s.threads[tid], inp, node);
      if t == tid {
        ActorBacked(s, tid, inp, node);
      } else {
        ServedBefore(s, tid, inp, node, t);
        assert Served(s, node);
      }
    }
  }

  /** An undercut link is still there, with its peer gone. */
  lemma UndercutIsUnbacked(s: State, tid: nat, inp: Input, node: Node)
    requires Next(s, Run(tid, inp)).Some? && Undercuts(s, Run(tid, inp), node)
    ensures !Backed(Next(s, Run(tid, inp)).value, node)
  {
    var u := Next(s, Run(tid, inp)).value;
    AdvanceLive(s.shared, s.threads[tid], inp, node);
    var t :| 0 <= t < |s.threads| && Serves(s, node, t);
    assert Serves(u, node, t);
    assert Served(u, node);
  }

  /** Established links and live entries, step by step: from a state in which an established link
      finds its peer live, a step leads to another such state exactly when it does not remove that
      entry under the link. */
  lemma BackedStepExactly(s: State, act: Action, node: Node)
    requires Ticketed(s) && Room(s.issued) && Backed(s, node) && Next(s, act).Some?
    ensures Backed(Next(s, act).value, node) <==> !Undercuts(s, act, node)
  {
    if act.Run? {
      if Undercuts(s, act, node) {
        UndercutIsUnbacked(s, act.tid, act.inp, node);
      } else {
        BackedAfterRun(s, act.tid, act.inp, node);
      }
    } else {
      var u := Next(s, act).value;
      if Served(u, node) {
        var t :| 0 <= t < |u.threads| && Serves(u, node, t);
        assert Serves(s, node, t) && Served(s, node);
      }
    }
  }

  // ---------------------------------------------------------------- how a link ends

  /** The step makes the link of thread `t` leave by itself (it fails, is closed or greets again), or
      is the opening of a WebRTC channel that takes its slot. */
  predicate Ends(s: State, act: Action, node: Node, t: nat) {
    act.Run? && act.tid < |s.threads| &&
    if act.tid == t then act.inp.Leave? || act.inp.Hello?
    else act.inp.Open? && s.threads[act.tid].pc == LinkStart(node) &&
         s.threads[act.tid].driver.Some? && s.threads[act.tid].driver.value.kind.RtcDriver?
  }

  /** What a step makes of the links of other threads: only an opening channel takes their slots. */
  lemma OtherLinkStays(s: State, tid: nat, inp: Input, node: Node, t: nat)
    requires Ticketed(s) && Room(s.issued) && Next(s, Run(tid, inp)).Some? && t != tid && Serves(s, node, t)
    ensures Serves(Next(s, Run(tid, inp)).value, node, t) <==> !Ends(s, Run(tid, inp), node, t)
  {
    var u := Next(s, Run(tid, inp)).value;
    AdvanceSlots(s.shared, s.threads[tid], inp);
    assert u.threads[t] == s.threads[t];
    if Owns(u.shared.ws, node, s.shared.ws[node]) {
      if Ends(s, Run(tid, inp), node, t) {
        SameIdSameThread(s, t, tid);
      }
    } else if node !in u.shared.ws {
      SameIdSameThread(s, t, tid);
    }
  }

  /** A thread's own steps keep its link exactly as long as its peer is live and nothing ends it. */
  lemma OwnLinkStays(s: State, t: nat, inp: Input, node: Node)
    requires Next(s, Run(t, inp)).Some? && Serves(s, node, t) && node in s.shared.p2p
    ensures Serves(Next(s, Run(t, inp)).value, node, t) <==> !Ends(s, Run(t, inp), node, t)
  {
    var e := Advance(s.shared, s.threads[t], inp).value;
    if e.pc.Emit? {
      assert PastMark(e.pc, node) == PastMark(e.pc.next, node) && Held(e.pc) == Held(e.pc.next);
    }
  }

  /** From a state in which established links are backed, a step ends a link exactly if the link
      leaves by itself or a WebRTC channel opens over it; an undercut shows later. */
  lemma LinkStepExactly(s: State, act: Action, node: Node, t: nat)
    requires Ticketed(s) && Room(s.issued) && Backed(s, node) && Next(s, act).Some? && Serves(s, node, t)
    ensures Serves(Next(s, act).value, node, t) <==> !Ends(s, act, node, t)
  {
    assert Served(s, node);
    if act.Run? {
      if act.tid == t {
        OwnLinkStays(s, t, act.inp, node);
      } else {
        OtherLinkStays(s, act.tid, act.inp, node, t);
      }
    }
  }

  // ---------------------------------------------------------------- whole runs

  predicate EverUndercut(s: State, acts: seq<Action>, node: Node)
    decreases |acts|
  {
    acts != [] &&
    (Undercuts(s, acts[0], node) || (Next(s, acts[0]).Some? && EverUndercut(Next(s, acts[0]).value, acts[1..], node)))
  }

  predicate EverEnds(s: State, acts: seq<Action>, node: Node, t: nat)
    decreases |acts|
  {
    acts != [] &&
    (Ends(s, acts[0], node, t) || (Next(s, acts[0]).Some? && EverEnds(Next(s, acts[0]).value, acts[1..], node, t)))
  }

  /** Counters only grow, so they had room before if they have it at the end. */
  lemma {:induction false} RoomBefore(s: State, acts: seq<Action>)
    requires RunFrom(s, acts).Some? && Room(RunFrom(s, acts).value.issued)
    ensures Room(s.issued)
    decreases |acts|
  {
    if acts != [] {
      RoomBefore(Next(s, acts[0]).value, acts[1..]);
      var n, m := s.issued, Next(s, acts[0]).value.issued;
      assert n.ws <= m.ws && n.punch <= m.punch && n.rtc <= m.rtc;
      assert forall k :: n.Of(k) <= m.Of(k);
    }
  }

  lemma {:induction false} BackedThroughout(s: State, acts: seq<Action>, node: Node)
    requires Ticketed(s) && Backed(s, node) && RunFrom(s, acts).Some? && Room(RunFrom(s, acts).value.issued)
    requires !EverUndercut(s, acts, node)
    ensures Backed(RunFrom(s, acts).value, node)
    decreases |acts|
  {
    if acts != [] {
      RoomBefore(s, acts);
      TicketedStep(s, acts[0]);
      BackedStepExactly(s, acts[0], node);
      BackedThroughout(Next(s, acts[0]).value, acts[1..], node);
    }
  }

  /** In every run in which nobody removes the live entry of a peer under its established link, such a
      link always finds its peer in the live table. */
  lemma EstablishedLinksAreLive(acts: seq<Action>, node: Node)
    requires RunFrom(INIT, acts).Some? && Room(RunFrom(INIT, acts).value.issued) && !EverUndercut(INIT, acts, node)
    ensures Backed(RunFrom(INIT, acts).value, node)
  {
    BackedThroughout(INIT, acts, node);
  }

  /** A link that is not undercut lasts until it leaves by itself or a WebRTC channel opens over it. */
  lemma {:induction false} LinkSurvives(s: State, acts: seq<Action>, node: Node, t: nat)
    requires Ticketed(s) && RunFrom(s, acts).Some? && Room(RunFrom(s, acts).value.issued)
    requires Backed(s, node) && Serves(s, node, t)
    requires !EverUndercut(s, acts, node) && !EverEnds(s, acts, node, t)
    ensures Serves(RunFrom(s, acts).value, node, t) && node in RunFrom(s, acts).value.shared.p2p
    decreases |acts|
  {
    if acts == [] {
      assert Served(s, node);
    } else {
      RoomBefore(s, acts);
      TicketedStep(s, acts[0]);
      BackedStepExactly(s, acts[0], node);
      LinkStepExactly(s, acts[0], node, t);
      LinkSurvives(Next(s, acts[0]).value, acts[1..], node, t);
    }
  }

  /** How often thread `t` gets to take an ordinary step. */
  function Turns(acts: seq<Action>, t: nat): nat {
    if acts == [] then 0
    else (if acts[0].Run? && acts[0].tid == t && acts[0].inp.Go? then 1 else 0) + Turns(acts[1..], t)
  }

  predicate NobodyMarks(s: State, acts: seq<Action>, node: Node)
    decreases |acts|
  {
    acts == [] ||
    (!(acts[0].Run? && acts[0].tid < |s.threads| && Marks(s.threads[acts[0].tid].pc) == Some(node)) &&
     (Next(s, acts[0]).Some? ==> NobodyMarks(Next(s, acts[0]).value, acts[1..], node)))
  }

  /** Ordinary steps a datagram link takes to find out that its peer is gone. */
  function LoopRank(pc: Pc): nat {
    match pc
    case LinkLoop(_) => 2
    case LinkCheck(_) => 1
    case Emit(_, next) => 1 + LoopRank(next)
    case _ => 0
  }

  /** The thread of a datagram link of `node`, established or on its way out. */
  predicate LinkOf(pc: Pc, node: Node) {
    match pc
    case LinkLoop(n) => n == node
    case LinkCheck(n) => n == node
    case LinkExit(n) => n == node
    case LinkDrop(n) => n == node
    case Emit(_, next) => LinkOf(next, node)
    case Done => true
    case _ => false
  }

  lemma LoopRankFalls(sh: Shared, th: Thread, inp: Input, node: Node)
    requires Advance(sh, th, inp).Some? && LinkOf(th.pc, node) && node !in sh.p2p
    ensures var e := Advance(sh, th, inp).value;
            LinkOf(e.pc, node) && LoopRank(e.pc) + (if inp.Go? && LoopRank(th.pc) > 0 then 1 else 0) <= LoopRank(th.pc)
  {
  }

  /** An undercut datagram link falls: once its peer is gone from the live table and as long as nobody
      marks it live again, the driver is out of its loop after two steps of its own at most (three if
      it has still to announce its peer). */
  lemma {:induction false} UndercutLinkFalls(s: State, acts: seq<Action>, node: Node, t: nat)
    requires RunFrom(s, acts).Some? && node !in s.shared.p2p && NobodyMarks(s, acts, node)
    requires t < |s.threads| && LinkOf(s.threads[t].pc, node) && Turns(acts, t) >= LoopRank(s.threads[t].pc)
    ensures var u := RunFrom(s, acts).value;
            t < |u.threads| && LinkOf(u.threads[t].pc, node) && !PastMark(u.threads[t].pc, node)
    decreases |acts|
  {
    if acts == [] {
      RankZero(s.threads[t].pc, node);
    } else {
      var u := Next(s, acts[0]).value;
      if acts[0].Run? {
        AdvanceLive(s.shared, s.threads[acts[0].tid], acts[0].inp, node);
        if acts[0].tid == t {
          LoopRankFalls(s.shared, s.threads[t], acts[0].inp, node);
        }
      }
      UndercutLinkFalls(u, acts[1..], node, t);
    }
  }

  lemma RankZero(pc: Pc, node: Node)
    requires LinkOf(pc, node) && LoopRank(pc) == 0
    ensures !PastMark(pc, node)
  {
  }
}
