/** The heartbeat window: timelines of refreshes and ticks over the live table, on a clock of whole
    seconds that never goes back, with nothing else removing links. */
module Heartbeat {
  import opened Base
  import opened LiveTables

  datatype Act =
    | Seen(node: Node, kind: TransportKind, addr: Option<Addr>, now: nat)  // mark_live
    | Touched(node: Node, now: nat)                                        // touch_live
    | Tick(now: nat)                                                       // one sweep of the heartbeat

  function Apply(m: Conns, act: Act): Conns {
    match act
    case Seen(node, kind, addr, now) => Mark(m, node, kind, addr, now)
    case Touched(node, now) => Touch(m, node, now)
    case Tick(now) => Survivors(m, now)
  }

  function Play(m: Conns, acts: seq<Act>): Conns
    decreases |acts|
  {
    if acts == [] then m else Play(Apply(m, acts[0]), acts[1..])
  }

  predicate Refreshes(act: Act, node: Node) {
    !act.Tick? && act.node == node
  }

  predicate Monotone(acts: seq<Act>, start: nat, end: nat) {
    if acts == [] then start <= end
    else start <= acts[0].now && Monotone(acts[1..], acts[0].now, end)
  }

  /** Consecutive refreshes of `node`, the first after time `last`, are at most 15 s apart, and the
      timeline ends at most 15 s after the last of them. */
  predicate GapsWithin(acts: seq<Act>, node: Node, last: nat, end: nat) {
    if acts == [] then end <= last + TIMEOUT
    else if Refreshes(acts[0], node) then acts[0].now <= last + TIMEOUT && GapsWithin(acts[1..], node, acts[0].now, end)
    else GapsWithin(acts[1..], node, last, end)
  }

  lemma {:induction false} NextActInTime(acts: seq<Act>, node: Node, last: nat, start: nat, end: nat)
    requires acts != [] && Monotone(acts, start, end) && GapsWithin(acts, node, last, end)
    ensures acts[0].now <= last + TIMEOUT
    decreases |acts|
  {
    if !Refreshes(acts[0], node) && |acts| > 1 {
      NextActInTime(acts[1..], node, last, acts[0].now, end);
    }
  }

  /** A link refreshed at least every 15 s is there after every step of the timeline, whatever its
      peers do and whenever the heartbeat ticks; its kind never changes. */
  lemma {:induction false} FreshLinkSurvives(m: Conns, acts: seq<Act>, node: Node, start: nat, end: nat, k: nat)
    requires node in m && Monotone(acts, start, end) && m[node].lastSeen <= start
    requires GapsWithin(acts, node, m[node].lastSeen, end)
    requires k <= |acts|
    ensures node in Play(m, acts[..k]) && Play(m, acts[..k])[node].kind == m[node].kind
    decreases k
  {
    if k > 0 {
      NextActInTime(acts, node, m[node].lastSeen, start, end);
      var next := Apply(m, acts[0]);
      assert node in next && next[node].kind == m[node].kind;
      assert acts[..k][1..] == acts[1..][..k - 1];
      FreshLinkSurvives(next, acts[1..], node, acts[0].now, end, k - 1);
    }
  }

  /** A WebSocket link is there after every step of every timeline, refreshed or not, and stays one. */
  lemma {:induction false} WsLinkStays(m: Conns, acts: seq<Act>, node: Node, k: nat)
    requires node in m && m[node].kind.Ws? && k <= |acts|
    ensures node in Play(m, acts[..k]) && Play(m, acts[..k])[node].kind.Ws?
    decreases k
  {
    if k > 0 {
      assert acts[..k][1..] == acts[1..][..k - 1];
      WsLinkStays(Apply(m, acts[0]), acts[1..], node, k - 1);
    }
  }

  /** The ticks of the timeline come at `first`, `first + 5`, `first + 10`, ... */
  predicate TicksEveryFive(acts: seq<Act>, first: nat) {
    if acts == [] then true
    else if acts[0].Tick? then acts[0].now == first && TicksEveryFive(acts[1..], first + 5)
    else TicksEveryFive(acts[1..], first)
  }

  predicate Silent(acts: seq<Act>, node: Node) {
    forall i :: 0 <= i < |acts| ==> !Refreshes(acts[i], node)
  }

  lemma {:induction false} GoneStaysGone(m: Conns, acts: seq<Act>, node: Node)
    requires node !in m && Silent(acts, node)
    ensures node !in Play(m, acts)
    decreases |acts|
  {
    if acts != [] {
      GoneStaysGone(Apply(m, acts[0]), acts[1..], node);
    }
  }

  /** A connectionless link last refreshed at `t` and never again is there until one particular
      tick and gone from then on, and that tick falls between t + 16 and t + 20. The timeline starts
      right after that refresh, with a tick due no later than t + 20. */
  lemma {:induction false} SilentLinkIsEvicted(m: Conns, acts: seq<Act>, node: Node, first: nat) returns (j: nat)
    requires node in m && !m[node].kind.Ws? && Silent(acts, node)
    requires first <= m[node].lastSeen + 20 && TicksEveryFive(acts, first)
    requires exists i :: 0 <= i < |acts| && acts[i].Tick? && acts[i].now > m[node].lastSeen + TIMEOUT
    ensures j < |acts| && acts[j].Tick? && m[node].lastSeen + 16 <= acts[j].now <= m[node].lastSeen + 20
    ensures forall k :: 0 <= k <= |acts| ==> (node in Play(m, acts[..k]) <==> k <= j)
    decreases |acts|
  {
    var next, rest := Apply(m, acts[0]), acts[1..];
    forall k | 0 < k <= |acts|
      ensures Play(m, acts[..k]) == Play(next, rest[..k - 1])
    {
      assert acts[..k][1..] == rest[..k - 1];
    }
    assert Play(m, acts[..0]) == m;
    if acts[0].Tick? && acts[0].now > m[node].lastSeen + TIMEOUT {
      j := 0;
      forall k | 0 < k <= |acts|
        ensures node !in Play(m, acts[..k])
      {
        GoneStaysGone(next, rest[..k - 1], node);
      }
    } else {
      assert node in next && next[node] == m[node];
      var i :| 0 <= i < |acts| && acts[i].Tick? && acts[i].now > m[node].lastSeen + TIMEOUT;
      assert rest[i - 1] == acts[i];
      var r := SilentLinkIsEvicted(next, rest, node, if acts[0].Tick? then first + 5 else first);
      j := r + 1;
    }
  }
}
