/** Hole punching and the round-trip confirmation as the two timed loops of one endpoint. */
module Handshake {
  import opened Bytes
  import opened Base
  import opened PunchLinks

  // ---------------------------------------------------------------- one endpoint

  /** What one turn of a timed loop meets before its deadline: whether the send interval has
      elapsed, and the datagram received, if any. */
  datatype Turn = Turn(sendDue: bool, recv: Option<Incoming>)

  /** What hearing a datagram makes an endpoint do. */
  datatype Heard = Heard(replies: seq<Datagram>, peer: Addr, done: Option<Addr>)

  /** `hole_punch` accepts anything that starts with the magic. */
  predicate IsProbe(pkt: bytes) {
    |pkt| >= |PUNCH_PING| && pkt[..|PUNCH_PING|] == PUNCH_PING
  }

  function PunchHear(m: Incoming): Heard {
    if IsProbe(m.pkt) then Heard([Datagram(m.src, PUNCH_PING)], m.src, Some(m.src))
    else Heard([], m.src, None)
  }

  /** `confirm_round_trip` compares whole datagrams. */
  function ConfirmHear(peer: Addr, m: Incoming): Heard {
    if m.pkt == PUNCH_PONG then Heard([], peer, Some(m.src))
    else if m.pkt == PUNCH_PING then Heard([Datagram(m.src, PUNCH_PONG)], m.src, None)
    else Heard([], peer, None)
  }

  datatype Outcome = Outcome(result: Option<Addr>, sent: seq<Datagram>)

  function PunchRun(candidates: seq<Addr>, turns: seq<Turn>): Outcome
    decreases |turns|
  {
    if turns == [] then Outcome(None, [])
    else
      var probes := if turns[0].sendDue then Probes(candidates) else [];
      if turns[0].recv.Some? && PunchHear(turns[0].recv.value).done.Some? then
        var h := PunchHear(turns[0].recv.value);
        Outcome(h.done, probes + h.replies)
      else
        var rest := PunchRun(candidates, turns[1..]);
        Outcome(rest.result, probes + rest.sent)
  }

  function Probes(candidates: seq<Addr>): (s: seq<Datagram>)
    ensures |s| == |candidates| && forall i :: 0 <= i < |s| ==> s[i] == Datagram(candidates[i], PUNCH_PING)
  {
    seq(|candidates|, i requires 0 <= i < |candidates| => Datagram(candidates[i], PUNCH_PING))
  }

  function ConfirmRun(peer: Addr, turns: seq<Turn>): Outcome
    decreases |turns|
  {
    if turns == [] then Outcome(None, [])
    else
      var pings := if turns[0].sendDue then [Datagram(peer, PUNCH_PING)] else [];
      if turns[0].recv.None? then
        var rest := ConfirmRun(peer, turns[1..]);
        Outcome(rest.result, pings + rest.sent)
      else
        var h := ConfirmHear(peer, turns[0].recv.value);
        if h.done.Some? then Outcome(h.done, pings)
        else
          var rest := ConfirmRun(h.peer, turns[1..]);
          Outcome(rest.result, pings + h.replies + rest.sent)
  }

  /** What a loop still has to give once `sent` is out. */
  function After(sent: seq<Datagram>, o: Outcome): Outcome {
    Outcome(o.result, sent + o.sent)
  }

  /** One turn of `hole_punch`, given what was sent before it. */
  lemma PunchTurn(candidates: seq<Addr>, turns: seq<Turn>, k: nat, sent: seq<Datagram>)
    requires k < |turns|
    ensures var now := if turns[k].sendDue then sent + Probes(candidates) else sent;
            After(sent, PunchRun(candidates, turns[k..])) ==
              if turns[k].recv.Some? && IsProbe(turns[k].recv.value.pkt)
              then Outcome(Some(turns[k].recv.value.src), now + [Datagram(turns[k].recv.value.src, PUNCH_PING)])
              else After(now, PunchRun(candidates, turns[k + 1..]))
  {
    assert turns[k..][1..] == turns[k + 1..];
  }

  /** One turn of `confirm_round_trip`. */
  lemma ConfirmTurn(peer: Addr, turns: seq<Turn>, k: nat, sent: seq<Datagram>)
    requires k < |turns|
    ensures var now := if turns[k].sendDue then sent + [Datagram(peer, PUNCH_PING)] else sent;
            After(sent, ConfirmRun(peer, turns[k..])) ==
              if turns[k].recv.None? then After(now, ConfirmRun(peer, turns[k + 1..]))
              else
                var h := ConfirmHear(peer, turns[k].recv.value);
                if h.done.Some? then Outcome(h.done, now)
                else After(now + h.replies, ConfirmRun(h.peer, turns[k + 1..]))
  {
    assert turns[k..][1..] == turns[k + 1..];
  }

  /** The inner loop of `hole_punch`: one probe to each candidate, in order. */
  method Probe(candidates: seq<Addr>, before: seq<Datagram>) returns (sent: seq<Datagram>)
    ensures sent == before + Probes(candidates)
  {
    sent := before;
    for i := 0 to |candidates|
      invariant sent == before + Probes(candidates)[..i]
    {
      sent := sent + [Datagram(candidates[i], PUNCH_PING)];
    }
  }

  /** `hole_punch`, over the turns it makes before its deadline. */
  method HolePunch(candidates: seq<Addr>, turns: seq<Turn>) returns (r: Option<Addr>, sent: seq<Datagram>)
    ensures Outcome(r, sent) == PunchRun(candidates, turns)
  {
    sent := [];
    for k := 0 to |turns|
      invariant PunchRun(candidates, turns) == After(sent, PunchRun(candidates, turns[k..]))
    {
      PunchTurn(candidates, turns, k, sent);
      if turns[k].sendDue {
        sent := Probe(candidates, sent);
      }
      if turns[k].recv.Some? {
        var m := turns[k].recv.value;
        if |m.pkt| >= |PUNCH_PING| && m.pkt[..|PUNCH_PING|] == PUNCH_PING {
          return Some(m.src), sent + [Datagram(m.src, PUNCH_PING)];
        }
      }
    }
    r := None;
  }

  /** `confirm_round_trip`, over the turns it makes before its deadline. */
  method ConfirmRoundTrip(peer: Addr, turns: seq<Turn>) returns (r: Option<Addr>, sent: seq<Datagram>)
    ensures Outcome(r, sent) == ConfirmRun(peer, turns)
  {
    sent := [];
    var peerAddr := peer;
    for k := 0 to |turns|
      invariant ConfirmRun(peer, turns) == After(sent, ConfirmRun(peerAddr, turns[k..]))
    {
      ConfirmTurn(peerAddr, turns, k, sent);
      if turns[k].sendDue {
        sent := sent + [Datagram(peerAddr, PUNCH_PING)];
      }
      if turns[k].recv.Some? {
        var m := turns[k].recv.value;
        if m.pkt == PUNCH_PONG {
          return Some(m.src), sent;
        }
        if m.pkt == PUNCH_PING {
          peerAddr := m.src;
          sent := sent + [Datagram(m.src, PUNCH_PONG)];
        }
      }
    }
    r := None;
  }

  // ---------------------------------------------------------------- what the loops compute

  /** Turns in which the send interval had elapsed. */
  function DueCount(turns: seq<Turn>): nat {
    if turns == [] then 0 else (if turns[0].sendDue then 1 else 0) + DueCount(turns[1..])
  }

  function Rounds(probes: seq<Datagram>, n: nat): seq<Datagram> {
    if n == 0 then [] else probes + Rounds(probes, n - 1)
  }

  predicate HearsProbe(turn: Turn) {
    turn.recv.Some? && PUNCH_PING <= turn.recv.value.pkt
  }

  /** Without a probe before the deadline `hole_punch` gives up, having sent one probe to every
      candidate, in order, for each turn in which they were due. */
  lemma {:induction false} NoProbeNoPath(candidates: seq<Addr>, turns: seq<Turn>)
    requires forall k :: 0 <= k < |turns| ==> !HearsProbe(turns[k])
    ensures PunchRun(candidates, turns) == Outcome(None, Rounds(Probes(candidates), DueCount(turns)))
    decreases |turns|
  {
    if turns != [] {
      NoProbeNoPath(candidates, turns[1..]);
    }
  }

  /** Otherwise it returns the source of the first probe, having probed the candidates for each due
      turn up to that one, and then acknowledged the probe to where it came from. */
  lemma {:induction false} FirstProbeWins(candidates: seq<Addr>, turns: seq<Turn>, first: nat)
    requires first < |turns| && HearsProbe(turns[first])
    requires forall k :: 0 <= k < first ==> !HearsProbe(turns[k])
    ensures var src := turns[first].recv.value.src;
            PunchRun(candidates, turns) ==
              Outcome(Some(src), Rounds(Probes(candidates), DueCount(turns[..first + 1])) + [Datagram(src, PUNCH_PING)])
    decreases first
  {
    if first > 0 {
      FirstProbeWins(candidates, turns[1..], first - 1);
      assert turns[1..][..first] == turns[..first + 1][1..];
    } else {
      assert turns[..1][1..] == [];
    }
  }

  predicate Hears(turn: Turn, pkt: bytes) {
    turn.recv.Some? && turn.recv.value.pkt == pkt
  }

  /** The confirmation loop succeeds exactly when it hears a pong in time, with the address the
      first pong came from; it never sends a pong except back to an address it heard a ping from. */
  lemma {:induction false} ConfirmationNeedsPong(peer: Addr, turns: seq<Turn>)
    ensures var o := ConfirmRun(peer, turns);
            (o.result.Some? <==> exists k :: 0 <= k < |turns| && Hears(turns[k], PUNCH_PONG)) &&
            (o.result.Some? ==>
              exists k :: 0 <= k < |turns| && Hears(turns[k], PUNCH_PONG) && turns[k].recv.value.src == o.result.value &&
                forall j :: 0 <= j < k ==> !Hears(turns[j], PUNCH_PONG)) &&
            (forall n :: 0 <= n < |o.sent| && o.sent[n].pkt != PUNCH_PING ==>
              o.sent[n].pkt == PUNCH_PONG &&
              exists k :: 0 <= k < |turns| && Hears(turns[k], PUNCH_PING) && turns[k].recv.value.src == o.sent[n].to)
    decreases |turns|
  {
    if turns != [] {
      var next := if turns[0].recv.None? then peer else ConfirmHear(peer, turns[0].recv.value).peer;
      ConfirmationNeedsPong(next, turns[1..]);
      assert forall k :: 0 <= k < |turns| - 1 ==> turns[1..][k] == turns[k + 1];
      var o := ConfirmRun(peer, turns);
      if !Hears(turns[0], PUNCH_PONG) {
        var rest := ConfirmRun(next, turns[1..]);
        assert o.result == rest.result;
        var own := |o.sent| - |rest.sent|;
        forall n | 0 <= n < |o.sent| && o.sent[n].pkt != PUNCH_PING
          ensures o.sent[n].pkt == PUNCH_PONG
          ensures exists k :: 0 <= k < |turns| && Hears(turns[k], PUNCH_PING) && turns[k].recv.value.src == o.sent[n].to
        {
          if n < own {
            assert Hears(turns[0], PUNCH_PING) && turns[0].recv.value.src == o.sent[n].to;
          } else {
            assert o.sent[n] == rest.sent[n - own];
          }
        }
      }
    }
  }

  /** Where the latest ping of the first `k` turns came from; the address to start with if there was
      none. */
  function LatestPing(peer: Addr, turns: seq<Turn>, k: nat): Addr
    requires k <= |turns|
  {
    if k == 0 then peer
    else if Hears(turns[k - 1], PUNCH_PING) then turns[k - 1].recv.value.src
    else LatestPing(peer, turns, k - 1)
  }

  /** What is sent in a turn: a ping to where the latest one came from, if one is due, and a pong to
      where a ping comes from, if one does. */
  function SaidIn(peer: Addr, turns: seq<Turn>, k: nat): seq<Datagram>
    requires k < |turns|
  {
    (if turns[k].sendDue then [Datagram(LatestPing(peer, turns, k), PUNCH_PING)] else []) +
    (if Hears(turns[k], PUNCH_PING) then [Datagram(turns[k].recv.value.src, PUNCH_PONG)] else [])
  }

  function Said(peer: Addr, turns: seq<Turn>, n: nat): seq<Datagram>
    requires n <= |turns|
  {
    if n == 0 then [] else Said(peer, turns, n - 1) + SaidIn(peer, turns, n - 1)
  }

  lemma {:induction false} LatestLater(peer: Addr, turns: seq<Turn>, next: Addr, rest: seq<Turn>, k: nat)
    requires turns != [] && rest == turns[1..] && next == LatestPing(peer, turns, 1) && k < |turns|
    ensures LatestPing(peer, turns, k + 1) == LatestPing(next, rest, k)
    decreases k
  {
    if k > 0 {
      LatestLater(peer, turns, next, rest, k - 1);
    }
  }

  lemma {:induction false} SaidLater(peer: Addr, turns: seq<Turn>, next: Addr, rest: seq<Turn>, n: nat)
    requires turns != [] && rest == turns[1..] && next == LatestPing(peer, turns, 1) && n < |turns|
    ensures Said(peer, turns, n + 1) == SaidIn(peer, turns, 0) + Said(next, rest, n)
    decreases n
  {
    if n == 0 {
      assert Said(peer, turns, 0) == [];
    } else {
      SaidLater(peer, turns, next, rest, n - 1);
      LatestLater(peer, turns, next, rest, n - 1);
      assert SaidIn(peer, turns, n) == SaidIn(next, rest, n - 1);
      Regroup(SaidIn(peer, turns, 0), Said(next, rest, n - 1), SaidIn(next, rest, n - 1));
    }
  }

  lemma Regroup(a: seq<Datagram>, b: seq<Datagram>, c: seq<Datagram>)
    ensures a + (b + c) == a + b + c
  {
  }

  /** All that `confirm_round_trip` sends: until the first pong, or its deadline, a ping whenever one is
      due, always to where the latest ping of the peer came from, and a pong back for each ping. */
  lemma {:induction false} ConfirmSays(peer: Addr, turns: seq<Turn>, n: nat)
    requires n <= |turns| && forall k :: 0 <= k < n ==> !Hears(turns[k], PUNCH_PONG)
    requires n == |turns| || Hears(turns[n], PUNCH_PONG)
    ensures ConfirmRun(peer, turns).sent == Said(peer, turns, if n < |turns| then n + 1 else n)
    decreases n
  {
    if turns != [] {
      var next := LatestPing(peer, turns, 1);
      if n == 0 {
        assert Said(peer, turns, 1) == SaidIn(peer, turns, 0);
      } else {
        ConfirmSays(next, turns[1..], n - 1);
        SaidLater(peer, turns, next, turns[1..], if n < |turns| then n else n - 1);
        assert LatestPing(peer, turns, 0) == peer;
      }
    }
  }
}
