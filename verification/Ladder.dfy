/** The connection ladder: its rungs as the code climbs them, against a table of rungs. */
module Ladder {
  import opened Base

  datatype Stage =
    | UdpPing | DirectWs | ViaSignal | Punching | WebRtc
    | Connected(over: Option<string>)
    | Failed(reason: string)

  /** What one ladder meets, apart from the liveness of the peer. */
  datatype World = World(
    peerKnown: bool,
    sameLan: bool, pingSent: bool,
    wsAdvertised: bool, wsDialed: bool,        // port set, reported open and not inbound-blocked
    startSent: bool,
    gathered: bool, offerSent: bool, candidatesAnswered: bool,
    rtcBuilt: bool, sdpCreated: bool, sdpSent: bool, sdpAnswered: bool, answerApplied: bool)

  // ---------------------------------------------------------------- specification

  /** A rung announces its stage if it is entered, and waits for the peer if its set-up worked. */
  datatype Rung = Rung(stage: Stage, entered: bool, ready: bool, polls: nat, success: seq<Stage>)

  const RUNGS: nat := 5

  function RungAt(w: World, r: nat): Rung
    requires r < RUNGS
  {
    if r == 0 then Rung(UdpPing, w.sameLan, w.pingSent, 21, [Connected(Some("udp"))])
    else if r == 1 then Rung(DirectWs, w.wsAdvertised, w.wsDialed, 31, [])
    else if r == 2 then Rung(ViaSignal, true, w.startSent, 81, [])
    else if r == 3 then Rung(Punching, true, w.gathered && w.offerSent && w.candidatesAnswered, 121, [])
    else Rung(WebRtc, w.rtcBuilt, w.sdpCreated && w.sdpSent && w.sdpAnswered && w.answerApplied, 121, [])
  }

  /** `live(k)` is what the k-th liveness poll of this ladder sees. */
  datatype Outcome = Outcome(stages: seq<Stage>, polls: nat)

  /** The first of `n` polls from the `k`-th on that sees the peer, or the one after them. */
  function PollUntil(live: nat -> bool, k: nat, n: nat): (r: nat)
    ensures k <= r <= k + n
    ensures forall i :: k <= i < r ==> !live(i)
    ensures r < k + n ==> live(r)
    decreases n
  {
    if n == 0 || live(k) then k else PollUntil(live, k + 1, n - 1)
  }

  /** What the ladder reports from rung `r` on, after `polls` polls. */
  function Climb(w: World, live: nat -> bool, r: nat, polls: nat): Outcome
    requires r <= RUNGS
    decreases RUNGS - r, polls
  {
    if r == RUNGS then Outcome([Failed("no reachable path")], polls)
    else
      var rung := RungAt(w, r);
      var announced := if rung.entered then [rung.stage] else [];
      var stop := if rung.entered && rung.ready then PollUntil(live, polls, rung.polls) else polls;
      if rung.entered && rung.ready && stop < polls + rung.polls then Outcome(announced + rung.success, stop + 1)
      else
        var rest := Climb(w, live, r + 1, stop);
        Outcome(announced + rest.stages, rest.polls)
  }

  /** Where a rung leaves the ladder: past its polls if it made any. */
  function StopOf(rung: Rung, live: nat -> bool, polls: nat): nat {
    if rung.entered && rung.ready then PollUntil(live, polls, rung.polls) else polls
  }

  lemma ClimbSucceeds(w: World, live: nat -> bool, r: nat, polls: nat)
    requires r < RUNGS && RungAt(w, r).entered && RungAt(w, r).ready
    requires StopOf(RungAt(w, r), live, polls) < polls + RungAt(w, r).polls
    ensures Climb(w, live, r, polls) ==
              Outcome([RungAt(w, r).stage] + RungAt(w, r).success, StopOf(RungAt(w, r), live, polls) + 1)
  {
  }

  lemma ClimbGoesOn(w: World, live: nat -> bool, r: nat, polls: nat, rest: Outcome)
    requires r < RUNGS
    requires RungAt(w, r).entered && RungAt(w, r).ready ==>
               StopOf(RungAt(w, r), live, polls) == polls + RungAt(w, r).polls
    requires rest == Climb(w, live, r + 1, StopOf(RungAt(w, r), live, polls))
    ensures Climb(w, live, r, polls) ==
              Outcome((if RungAt(w, r).entered then [RungAt(w, r).stage] else []) + rest.stages, rest.polls)
  {
  }

  function LadderSpec(w: World, live: nat -> bool): Outcome {
    if live(0) then Outcome([Connected(None)], 1)
    else if !w.peerKnown then Outcome([Failed("peer not found")], 1)
    else Climb(w, live, 0, 1)
  }

  // ---------------------------------------------------------------- what is reported, in full

  /** What the `r`-th rung announces, from the first. */
  function Announces(w: World, r: nat): seq<Stage> {
    if r == 1 && w.sameLan then [UdpPing]
    else if r == 2 && w.wsAdvertised then [DirectWs]
    else if r == 3 then [ViaSignal]
    else if r == 4 then [Punching]
    else if r == 5 && w.rtcBuilt then [WebRtc]
    else []
  }

  /** How often it polls if the peer does not come up: for 2, 3, 8, 12 and 12 seconds every 100 ms, and
      once more, provided its set-up worked. */
  function PollsIn(w: World, r: nat): nat {
    if r == 1 && w.sameLan && w.pingSent then 21
    else if r == 2 && w.wsAdvertised && w.wsDialed then 31
    else if r == 3 && w.startSent then 81
    else if r == 4 && w.gathered && w.offerSent && w.candidatesAnswered then 121
    else if r == 5 && w.rtcBuilt && w.sdpCreated && w.sdpSent && w.sdpAnswered && w.answerApplied then 121
    else 0
  }

  /** The stages announced by the first `r` rungs. */
  function Tried(w: World, r: nat): seq<Stage> {
    if r == 0 then [] else Tried(w, r - 1) + Announces(w, r)
  }

  /** The polls made by the time they have failed, with the one at the very start. */
  function PollsOf(w: World, r: nat): nat {
    if r == 0 then 1 else PollsOf(w, r - 1) + PollsIn(w, r)
  }

  /** The first poll that sees the peer is the `k`-th, in the time of the `r`-th rung. */
  predicate SeenAt(w: World, live: nat -> bool, k: nat, r: nat) {
    1 <= r <= 5 && PollsOf(w, r - 1) <= k < PollsOf(w, r) && live(k) && forall i :: 0 <= i < k ==> !live(i)
  }

  /** What a ladder reports and how often it polls. If no poll sees the peer it announces every rung it
      enters and then fails; otherwise it stops at the rung in whose time the peer is first seen. */
  ghost predicate Reports(w: World, live: nat -> bool, o: Outcome) {
    if live(0) then o == Outcome([Connected(None)], 1)
    else if !w.peerKnown then o == Outcome([Failed("peer not found")], 1)
    else if forall k :: 0 <= k < PollsOf(w, 5) ==> !live(k) then
      o == Outcome(Tried(w, 5) + [Failed("no reachable path")], PollsOf(w, 5))
    else
      exists k: nat, r: nat :: SeenAt(w, live, k, r) &&
        o == Outcome(Tried(w, r) + (if r == 1 then [Connected(Some("udp"))] else []), k + 1)
  }

  lemma RungIs(w: World, r: nat)
    requires r < RUNGS
    ensures Announces(w, r + 1) == if RungAt(w, r).entered then [RungAt(w, r).stage] else []
    ensures PollsIn(w, r + 1) == if RungAt(w, r).entered && RungAt(w, r).ready then RungAt(w, r).polls else 0
    ensures RungAt(w, r).success == if r == 0 then [Connected(Some("udp"))] else []
  {
  }

  lemma SeenReports(w: World, live: nat -> bool, k: nat, r: nat, o: Outcome)
    requires w.peerKnown && SeenAt(w, live, k, r)
    requires o == Outcome(Tried(w, r) + (if r == 1 then [Connected(Some("udp"))] else []), k + 1)
    ensures Reports(w, live, o)
  {
    PollsGrow(w, r, 5);
    PollsGrow(w, 0, r - 1);
  }

  lemma Regroup(a: seq<Stage>, b: seq<Stage>, c: seq<Stage>)
    ensures a + (b + c) == a + b + c
  {
  }

  /** A rung in whose time the peer is seen ends the ladder. */
  lemma RungSeen(w: World, live: nat -> bool, r: nat, stop: nat)
    requires r < RUNGS && w.peerKnown && forall i :: 0 <= i < PollsOf(w, r) ==> !live(i)
    requires RungAt(w, r).entered && RungAt(w, r).ready && stop == PollUntil(live, PollsOf(w, r), RungAt(w, r).polls)
    requires stop < PollsOf(w, r) + RungAt(w, r).polls
    ensures Reports(w, live, Outcome(Tried(w, r) + ([RungAt(w, r).stage] + RungAt(w, r).success), stop + 1))
  {
    var rung := RungAt(w, r);
    RungIs(w, r);
    assert SeenAt(w, live, stop, r + 1);
    assert Tried(w, r + 1) == Tried(w, r) + [rung.stage];
    Regroup(Tried(w, r), [rung.stage], rung.success);
    SeenReports(w, live, stop, r + 1, Outcome(Tried(w, r + 1) + rung.success, stop + 1));
  }

  /** A rung in whose time the peer is not seen is passed. */
  lemma RungPassed(w: World, live: nat -> bool, r: nat, from: nat, rest: Outcome)
    requires r < RUNGS && from == PollsOf(w, r) && forall i :: 0 <= i < from ==> !live(i)
    requires RungAt(w, r).entered && RungAt(w, r).ready ==> StopOf(RungAt(w, r), live, from) == from + RungAt(w, r).polls
    requires rest == Climb(w, live, r + 1, StopOf(RungAt(w, r), live, from))
    ensures var stop, c := StopOf(RungAt(w, r), live, from), Climb(w, live, r, from);
            stop == PollsOf(w, r + 1) && (forall i :: 0 <= i < stop ==> !live(i)) &&
            Tried(w, r) + c.stages == Tried(w, r + 1) + rest.stages && c.polls == rest.polls
  {
    RungIs(w, r);
    ClimbGoesOn(w, live, r, from, rest);
    var announced := if RungAt(w, r).entered then [RungAt(w, r).stage] else [];
    assert Tried(w, r + 1) == Tried(w, r) + announced;
    Regroup(Tried(w, r), announced, rest.stages);
  }

  lemma NobodySeen(w: World, live: nat -> bool, polls: nat)
    requires w.peerKnown && polls == PollsOf(w, 5) && forall i :: 0 <= i < polls ==> !live(i)
    ensures Reports(w, live, Outcome(Tried(w, 5) + [Failed("no reachable path")], polls))
  {
    PollsGrow(w, 0, 5);
  }

  lemma {:induction false} ClimbReports(w: World, live: nat -> bool, r: nat, from: nat, c: Outcome)
    requires r <= RUNGS && w.peerKnown && from == PollsOf(w, r) && forall i :: 0 <= i < from ==> !live(i)
    requires c == Climb(w, live, r, from)
    ensures Reports(w, live, Outcome(Tried(w, r) + c.stages, c.polls))
    decreases RUNGS - r
  {
    if r == RUNGS {
      NobodySeen(w, live, from);
    } else {
      var rung := RungAt(w, r);
      var stop := StopOf(rung, live, from);
      if rung.entered && rung.ready && stop < from + rung.polls {
        ClimbSucceeds(w, live, r, from);
        RungSeen(w, live, r, stop);
      } else {
        var rest := Climb(w, live, r + 1, stop);
        RungPassed(w, live, r, from, rest);
        ClimbReports(w, live, r + 1, stop, rest);
      }
    }
  }

  lemma {:induction false} PollsGrow(w: World, r: nat, q: nat)
    requires r <= q
    ensures PollsOf(w, r) <= PollsOf(w, q)
    decreases q
  {
    if r < q {
      PollsGrow(w, r, q - 1);
    }
  }

  lemma LadderReports(w: World, live: nat -> bool)
    ensures Reports(w, live, LadderSpec(w, live))
  {
    if !live(0) && w.peerKnown {
      var c := Climb(w, live, 0, 1);
      ClimbReports(w, live, 0, 1, c);
      assert Tried(w, 0) == [];
      assert Tried(w, 0) + c.stages == c.stages;
    }
  }

  // ---------------------------------------------------------------- the code

  /** `wait_live`: polls every 100 ms and once more at the end. */
  method WaitLive(live: nat -> bool, from: nat, ms: nat) returns (up: bool, polls: nat)
    ensures var stop := PollUntil(live, from, ms / 100 + 1);
            up == (stop <= from + ms / 100) && polls == if up then stop + 1 else stop
  {
    var steps := ms / 100;
    polls := from;
    for i := 0 to steps
      invariant polls == from + i
      invariant PollUntil(live, from, steps + 1) == PollUntil(live, polls, steps + 1 - i)
    {
      polls := polls + 1;
      if live(polls - 1) {
        return true, polls;
      }
    }
    up := live(polls);
    polls := polls + 1;
  }

  /** `run_connect_ladder`; the methods below are its rungs, each with what follows it. */
  method RunLadder(w: World, live: nat -> bool) returns (stages: seq<Stage>, polls: nat)
    ensures Outcome(stages, polls) == LadderSpec(w, live)
    ensures Reports(w, live, Outcome(stages, polls))
  {
    LadderReports(w, live);
    if live(0) {
      return [Connected(None)], 1;
    }
    if !w.peerKnown {
      return [Failed("peer not found")], 1;
    }
    stages, polls := FromUdpPing(w, live, 1);
  }

  method FromUdpPing(w: World, live: nat -> bool, from: nat) returns (stages: seq<Stage>, polls: nat)
    ensures Outcome(stages, polls) == Climb(w, live, 0, from)
  {
    stages, polls := [], from;
    if w.sameLan {
      stages := [UdpPing];
      if w.pingSent {
        var up;
        up, polls := WaitLive(live, polls, 2000);
        if up {
          ClimbSucceeds(w, live, 0, from);
          stages := stages + [Connected(Some("udp"))];
          return;
        }
      }
    }
    var tail, end := FromDirectWs(w, live, polls);
    ClimbGoesOn(w, live, 0, from, Outcome(tail, end));
    stages, polls := stages + tail, end;
  }

  method FromDirectWs(w: World, live: nat -> bool, from: nat) returns (stages: seq<Stage>, polls: nat)
    ensures Outcome(stages, polls) == Climb(w, live, 1, from)
  {
    stages, polls := [], from;
    if w.wsAdvertised {
      stages := [DirectWs];
      if w.wsDialed {
        var up;
        up, polls := WaitLive(live, polls, 3000);
        if up {
          ClimbSucceeds(w, live, 1, from);
          return;
        }
      }
    }
    var tail, end := FromSignal(w, live, polls);
    ClimbGoesOn(w, live, 1, from, Outcome(tail, end));
    stages, polls := stages + tail, end;
  }

  method FromSignal(w: World, live: nat -> bool, from: nat) returns (stages: seq<Stage>, polls: nat)
    ensures Outcome(stages, polls) == Climb(w, live, 2, from)
  {
    stages, polls := [ViaSignal], from;
    if w.startSent {
      var up;
      up, polls := WaitLive(live, polls, 8000);
      if up {
        ClimbSucceeds(w, live, 2, from);
        return;
      }
    }
    var tail, end := FromPunching(w, live, polls);
    ClimbGoesOn(w, live, 2, from, Outcome(tail, end));
    stages, polls := stages + tail, end;
  }

  method FromPunching(w: World, live: nat -> bool, from: nat) returns (stages: seq<Stage>, polls: nat)
    ensures Outcome(stages, polls) == Climb(w, live, 3, from)
  {
    stages, polls := [Punching], from;
    if w.gathered {
      if w.offerSent {
        if w.candidatesAnswered {
          var up;
          up, polls := WaitLive(live, polls, 12000);
          if up {
            ClimbSucceeds(w, live, 3, from);
            return;
          }
        }
      }
    }
    var tail, end := FromWebRtc(w, live, polls);
    ClimbGoesOn(w, live, 3, from, Outcome(tail, end));
    stages, polls := stages + tail, end;
  }

  method FromWebRtc(w: World, live: nat -> bool, from: nat) returns (stages: seq<Stage>, polls: nat)
    ensures Outcome(stages, polls) == Climb(w, live, 4, from)
  {
    stages, polls := [], from;
    if w.rtcBuilt {
      stages := [WebRtc];
      if w.sdpCreated {
        if w.sdpSent {
          if w.sdpAnswered {
            if w.answerApplied {
              var up;
              up, polls := WaitLive(live, polls, 12000);
              if up {
                ClimbSucceeds(w, live, 4, from);
                return;
              }
            }
          }
        }
      }
    }
    ClimbGoesOn(w, live, 4, from, Outcome([Failed("no reachable path")], polls));
    stages := stages + [Failed("no reachable path")];
  }

  // ---------------------------------------------------------------- what the ladder promises

  function Rank(stage: Stage): nat {
    match stage
    case UdpPing => 1
    case DirectWs => 2
    case ViaSignal => 3
    case Punching => 4
    case WebRtc => 5
    case Connected(_) => 6
    case Failed(_) => 6
  }

  predicate Ascending(stages: seq<Stage>) {
    forall i, j :: 0 <= i < j < |stages| ==> Rank(stages[i]) < Rank(stages[j])
  }

  predicate ReportsFailure(stages: seq<Stage>) {
    exists i :: 0 <= i < |stages| && stages[i].Failed?
  }

  lemma RungRanks(w: World, r: nat)
    requires r < RUNGS
    ensures var rung := RungAt(w, r);
            Rank(rung.stage) == r + 1 && !rung.stage.Failed? &&
            (rung.success == [] || (|rung.success| == 1 && rung.success[0].Connected?))
  {
  }

  /** What an outcome that begins at rung `r`, after `polls` polls, has to satisfy. */
  predicate Promises(o: Outcome, live: nat -> bool, r: nat, polls: nat) {
    o.polls >= polls && Ascending(o.stages) &&
    (forall i :: 0 <= i < |o.stages| ==> Rank(o.stages[i]) > r) &&
    (ReportsFailure(o.stages) <==> forall k :: polls <= k < o.polls ==> !live(k))
  }

  lemma {:induction false} ClimbPromises(w: World, live: nat -> bool, r: nat, polls: nat)
    requires r <= RUNGS
    ensures Promises(Climb(w, live, r, polls), live, r, polls)
    decreases RUNGS - r
  {
    if r == RUNGS {
      assert Climb(w, live, r, polls).stages[0].Failed?;
    } else {
      var rung := RungAt(w, r);
      RungRanks(w, r);
      var stop := StopOf(rung, live, polls);
      var announced := if rung.entered then [rung.stage] else [];
      if rung.entered && rung.ready && stop < polls + rung.polls {
        ClimbSucceeds(w, live, r, polls);
        SuccessPromises(rung, live, r, polls, stop);
      } else {
        var rest := Climb(w, live, r + 1, stop);
        ClimbPromises(w, live, r + 1, stop);
        ClimbGoesOn(w, live, r, polls, rest);
        PrefixKeepsPromises(announced, rest.stages, r);
        GoingOnPromises(announced, rest, live, r, polls, stop);
      }
    }
  }

  lemma SuccessPromises(rung: Rung, live: nat -> bool, r: nat, polls: nat, stop: nat)
    requires r < RUNGS && Rank(rung.stage) == r + 1 && !rung.stage.Failed? && polls <= stop && live(stop)
    requires rung.success == [] || (|rung.success| == 1 && rung.success[0].Connected?)
    ensures Promises(Outcome([rung.stage] + rung.success, stop + 1), live, r, polls)
  {
    assert polls <= stop < stop + 1 && live(stop);
  }

  lemma GoingOnPromises(announced: seq<Stage>, rest: Outcome, live: nat -> bool, r: nat, polls: nat, stop: nat)
    requires Promises(rest, live, r + 1, stop) && polls <= stop && forall k :: polls <= k < stop ==> !live(k)
    requires Ascending(announced + rest.stages)
    requires forall i :: 0 <= i < |announced + rest.stages| ==> Rank((announced + rest.stages)[i]) > r
    requires ReportsFailure(announced + rest.stages) <==> ReportsFailure(rest.stages)
    ensures Promises(Outcome(announced + rest.stages, rest.polls), live, r, polls)
  {
  }

  lemma FirstKeepsPromises(first: Stage, rest: seq<Stage>, all: seq<Stage>, r: nat)
    requires Rank(first) == r + 1 && !first.Failed? && |all| == |rest| + 1 && all[0] == first
    requires forall i :: 1 <= i < |all| ==> all[i] == rest[i - 1]
    requires Ascending(rest) && forall i :: 0 <= i < |rest| ==> Rank(rest[i]) > r + 1
    ensures Ascending(all)
    ensures forall i :: 0 <= i < |all| ==> Rank(all[i]) > r
    ensures ReportsFailure(all) <==> ReportsFailure(rest)
  {
    if ReportsFailure(rest) {
      var i :| 0 <= i < |rest| && rest[i].Failed?;
      assert all[i + 1].Failed?;
    }
  }

  lemma PrefixKeepsPromises(announced: seq<Stage>, rest: seq<Stage>, r: nat)
    requires |announced| <= 1 && (announced != [] ==> Rank(announced[0]) == r + 1 && !announced[0].Failed?)
    requires Ascending(rest) && forall i :: 0 <= i < |rest| ==> Rank(rest[i]) > r + 1
    ensures Ascending(announced + rest)
    ensures forall i :: 0 <= i < |announced + rest| ==> Rank((announced + rest)[i]) > r
    ensures ReportsFailure(announced + rest) <==> ReportsFailure(rest)
  {
    if announced == [] {
      assert announced + rest == rest;
    } else {
      FirstKeepsPromises(announced[0], rest, announced + rest, r);
    }
  }

  /** Ladder soundness: stages are reported in strictly rising rung order with at most one terminal
      event, and the ladder reports failure exactly when no liveness poll it made saw the peer. */
  lemma LadderIsSound(w: World, live: nat -> bool)
    ensures var o := LadderSpec(w, live);
            Ascending(o.stages) &&
            (ReportsFailure(o.stages) <==> forall k :: 0 <= k < o.polls ==> !live(k))
  {
    if !live(0) && w.peerKnown {
      ClimbPromises(w, live, 0, 1);
    } else {
      assert LadderSpec(w, live).stages[0].Failed? == !live(0);
    }
  }
}
