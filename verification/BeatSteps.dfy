/** The heartbeat of the registry model, whose look at each link is a step of its own, against the tick
    that is one step. */
module BeatSteps {
  import opened Base
  import opened LiveTables
  import opened Registry

  /** The entries of the list, each once, are in the table as they were when it was taken. */
  predicate Fresh(list: seq<(Node, P2pConn)>, m: Conns) {
    (forall i :: 0 <= i < |list| ==> list[i].0 in m && m[list[i].0] == list[i].1) &&
    (forall i, j :: 0 <= i < j < |list| ==> list[i].0 != list[j].0)
  }

  predicate Listed(list: seq<(Node, P2pConn)>, node: Node) {
    exists i :: 0 <= i < |list| && list[i].0 == node
  }

  /** All steps are ordinary steps of thread `t`. */
  predicate OnlyRuns(acts: seq<Action>, t: nat) {
    forall n :: 0 <= n < |acts| ==> acts[n] == Run(t, GO)
  }

  /** What is left of the table: everything but the stale links of the list. */
  predicate LeavesFresh(m: Conns, list: seq<(Node, P2pConn)>, now: nat, left: Conns) {
    left.Keys <= m.Keys &&
    forall n :: n in m ==>
      (n in left <==> !(Listed(list, n) && !m[n].kind.Ws? && m[n].lastSeen + 15 < now)) && (n in left ==> left[n] == m[n])
  }

  /** A heartbeat thread that is not disturbed looks at every link of its list, drops exactly the stale
      ones, announcing each, and goes back to sleep. */
  lemma {:induction false} BeatSweeps(s: State, t: nat, list: seq<(Node, P2pConn)>, now: nat) returns (acts: seq<Action>)
    requires t < |s.threads| && s.threads[t].pc == BeatWork(list, now) && Fresh(list, s.shared.p2p)
    ensures OnlyRuns(acts, t) && RunFrom(s, acts).Some?
    ensures var u := RunFrom(s, acts).value;
            |u.threads| == |s.threads| && u.threads[t].pc.BeatIdle? &&
            LeavesFresh(s.shared.p2p, list, now, u.shared.p2p)
    decreases |list|
  {
    if list == [] {
      acts := [Run(t, GO)];
      var u := Next(s, Run(t, GO)).value;
      assert RunFrom(u, acts[1..]) == Some(u);
    } else {
      var first := LookStep(s, t, list, now);
      var u := RunFrom(s, first).value;
      var rest := BeatSweeps(u, t, list[1..], now);
      RunAppend(s, first, rest);
      acts := first + rest;
      SweptFirst(s.shared.p2p, list, now, u.shared.p2p, RunFrom(u, rest).value.shared.p2p);
    }
  }

  /** The look at the first link of the list, with the announcement if it is dropped. */
  lemma LookStep(s: State, t: nat, list: seq<(Node, P2pConn)>, now: nat) returns (acts: seq<Action>)
    requires t < |s.threads| && list != [] && s.threads[t].pc == BeatWork(list, now) && Fresh(list, s.shared.p2p)
    ensures OnlyRuns(acts, t) && RunFrom(s, acts).Some?
    ensures var u := RunFrom(s, acts).value;
            |u.threads| == |s.threads| && u.threads[t].pc == BeatWork(list[1..], now) &&
            u.shared.p2p == if Stale(list[0].1, now) then s.shared.p2p - {list[0].0} else s.shared.p2p
  {
    var u := Next(s, Run(t, GO)).value;
    if Stale(list[0].1, now) {
      var v := Next(u, Run(t, GO)).value;
      acts := [Run(t, GO), Run(t, GO)];
      RunSteps([s, u, v], acts);
    } else {
      acts := [Run(t, GO)];
      RunSteps([s, u], acts);
    }
  }

  lemma SweptFirst(m: Conns, list: seq<(Node, P2pConn)>, now: nat, mid: Conns, left: Conns)
    requires list != [] && Fresh(list, m) && mid == (if Stale(list[0].1, now) then m - {list[0].0} else m)
    requires LeavesFresh(mid, list[1..], now, left)
    ensures LeavesFresh(m, list, now, left)
  {
    forall n | n in m
      ensures Listed(list, n) <==> n == list[0].0 || Listed(list[1..], n)
    {
      if Listed(list, n) && n != list[0].0 {
        var i :| 0 <= i < |list| && list[i].0 == n;
        assert list[1..][i - 1].0 == n;
      }
      if Listed(list[1..], n) {
        var i :| 0 <= i < |list| - 1 && list[1..][i].0 == n;
        assert list[i + 1].0 == n;
      }
    }
    assert !Listed(list[1..], list[0].0);
  }

  /** A tick of the registry's heartbeat, undisturbed, is the tick that is one step: after it exactly the
      links that are not stale are left. */
  lemma UndisturbedBeat(s: State, t: nat, list: seq<(Node, P2pConn)>, now: nat) returns (acts: seq<Action>)
    requires t < |s.threads| && s.threads[t].pc.BeatIdle? && IsSnapshot(list, s.shared.p2p)
    ensures acts != [] && acts[0] == Run(t, Snapshot(list, now)) && OnlyRuns(acts[1..], t) && RunFrom(s, acts).Some?
    ensures var u := RunFrom(s, acts).value;
            t < |u.threads| && u.threads[t] == s.threads[t] && u.shared.p2p == Survivors(s.shared.p2p, now)
  {
    var a := Next(s, Run(t, Snapshot(list, now))).value;
    assert a.shared == s.shared;
    var rest := BeatSweeps(a, t, list, now);
    acts := [Run(t, Snapshot(list, now))] + rest;
    assert acts[1..] == rest;
    DriverStays(a, rest, t);
    AllListed(s.shared.p2p, list, now, RunFrom(a, rest).value.shared.p2p);
  }

  lemma AllListed(m: Conns, list: seq<(Node, P2pConn)>, now: nat, left: Conns)
    requires IsSnapshot(list, m) && LeavesFresh(m, list, now, left)
    ensures left == Survivors(m, now)
  {
    assert forall n :: n in m ==> Listed(list, n);
  }

  lemma {:induction false} DriverStays(s: State, acts: seq<Action>, t: nat)
    requires t < |s.threads| && OnlyRuns(acts, t) && RunFrom(s, acts).Some?
    ensures |RunFrom(s, acts).value.threads| == |s.threads| && RunFrom(s, acts).value.threads[t].driver == s.threads[t].driver
    decreases |acts|
  {
    if acts != [] {
      DriverStays(Next(s, acts[0]).value, acts[1..], t);
    }
  }

  /** The heartbeat starts asleep. */
  lemma BeatStarts(s: State)
    ensures var u := Next(s, SpawnBeat); u.Some? && u.value.threads == s.threads + [Thread(None, BeatIdle)] && u.value.shared == s.shared
  {
  }
}
