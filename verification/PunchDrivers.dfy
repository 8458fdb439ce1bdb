/** The main loop of an established punched link: flush, keep alive, receive, check. */
module PunchDrivers {
  import opened Bytes
  import opened Base
  import opened Chunking
  import opened PunchLinks
  import opened LinkRuns
  import opened WireRuns

  /** What one turn of the loop meets: the frames queued by then, how many datagrams the socket will
      still accept, whether a keepalive is due, the datagram received if any, and whether the link
      is still wanted afterwards. */
  datatype Turn = Turn(queue: seq<bytes>, budget: nat, keepaliveDue: bool, recv: Option<Incoming>, wanted: bool)

  function Queued(turns: seq<Turn>): seq<bytes> {
    if turns == [] then [] else Queued(turns[..|turns| - 1]) + turns[|turns| - 1].queue
  }

  function Received(turns: seq<Turn>): seq<bytes> {
    if turns == [] then []
    else
      var recv := turns[|turns| - 1].recv;
      Received(turns[..|turns| - 1]) + (if recv.Some? then [recv.value.pkt] else [])
  }

  function Payloads(sent: seq<Datagram>): (pkts: seq<bytes>)
    ensures |pkts| == |sent|
  {
    seq(|sent|, i requires 0 <= i < |sent| => sent[i].pkt)
  }

  /** The addresses signs of life came from, in order: probes, pongs and chunks that complete a frame. */
  function Signs(p: Table, turns: seq<Turn>): seq<Addr>
    requires Inv(p)
  {
    if turns == [] then []
    else
      var init, recv := turns[..|turns| - 1], turns[|turns| - 1].recv;
      Signs(p, init) +
      (if recv.Some? && React(LinkAfter(p, Received(init)), recv.value.pkt).touched then [recv.value.src] else [])
  }

  /** Where the peer is taken to be: where its latest sign of life came from. */
  function PeerAfter(first: Addr, signs: seq<Addr>): Addr {
    if signs == [] then first else signs[|signs| - 1]
  }

  /** Everything goes to the address proven at first or to one a sign of life came from. */
  predicate ToKnown(sent: seq<Datagram>, first: Addr, signs: seq<Addr>) {
    forall k :: 0 <= k < |sent| ==> sent[k].to == first || sent[k].to in signs
  }

  function Count(t: seq<bytes>, pkt: bytes): nat {
    if t == [] then 0 else Count(t[..|t| - 1], pkt) + (if t[|t| - 1] == pkt then 1 else 0)
  }

  /** Turns in which a keepalive was due. */
  function KeepalivesDue(turns: seq<Turn>): nat {
    if turns == [] then 0 else KeepalivesDue(turns[..|turns| - 1]) + (if turns[|turns| - 1].keepaliveDue then 1 else 0)
  }

  /** How many datagrams the frames are sent as. */
  function ChunkTotal(frames: seq<bytes>): nat {
    if frames == [] then 0 else ChunkCount(frames[0]) + ChunkTotal(frames[1..])
  }

  lemma {:induction false} WireLength(frames: seq<bytes>, firstId: u32)
    ensures |Wire(frames, firstId)| == ChunkTotal(frames)
    decreases |frames|
  {
    if frames != [] {
      WireLength(frames[1..], NextId(firstId));
    }
  }

  lemma {:induction false} CountAppend(a: seq<bytes>, b: seq<bytes>, pkt: bytes)
    ensures Count(a + b, pkt) == Count(a, pkt) + Count(b, pkt)
    decreases |b|
  {
    if b == [] {
      assert a + b == a;
    } else {
      assert (a + b)[..|a + b| - 1] == a + b[..|b| - 1];
      CountAppend(a, b[..|b| - 1], pkt);
    }
  }

  lemma {:induction false} CountNone(t: seq<bytes>, pkt: bytes)
    requires forall i :: 0 <= i < |t| ==> t[i] != pkt
    ensures Count(t, pkt) == 0
    decreases |t|
  {
    if t != [] {
      CountNone(t[..|t| - 1], pkt);
    }
  }

  // ---------------------------------------------------------------- wires and keepalives

  lemma {:induction false} StripAppend(a: seq<bytes>, b: seq<bytes>)
    ensures Strip(a + b) == Strip(a) + Strip(b)
    decreases |b|
  {
    if b == [] {
      assert a + b == a;
    } else {
      assert (a + b)[..|a + b| - 1] == a + b[..|b| - 1];
      StripAppend(a, b[..|b| - 1]);
    }
  }

  lemma {:induction false} StripKeepsData(t: seq<bytes>)
    requires forall i :: 0 <= i < |t| ==> !Keepalive(t[i])
    ensures Strip(t) == t
    decreases |t|
  {
    if t != [] {
      StripKeepsData(t[..|t| - 1]);
    }
  }

  lemma {:induction false} WireIsData(frames: seq<bytes>, firstId: u32)
    ensures forall i :: 0 <= i < |Wire(frames, firstId)| ==> !Keepalive(Wire(frames, firstId)[i])
    decreases |frames|
  {
    if frames != [] {
      WireIsData(frames[1..], NextId(firstId));
    }
  }

  lemma {:induction false} WireAppend(a: seq<bytes>, b: seq<bytes>, firstId: u32, secondId: u32)
    requires secondId == IdAfter(firstId, |a|)
    ensures Wire(a + b, firstId) == Wire(a, firstId) + Wire(b, secondId)
    decreases |a|
  {
    if a == [] {
      assert a + b == b;
    } else {
      IdAfterAdds(firstId, 1, |a| - 1);
      assert (a + b)[1..] == a[1..] + b;
      WireAppend(a[1..], b, NextId(firstId), secondId);
      Regroup(Packets(firstId, a[0]), Wire(a[1..], NextId(firstId)), Wire(b, secondId));
    }
  }

  lemma Regroup(a: seq<bytes>, b: seq<bytes>, c: seq<bytes>)
    ensures a + (b + c) == a + b + c
  {
  }

  lemma IdAfterAdds(firstId: u32, m: nat, n: nat)
    ensures IdAfter(IdAfter(firstId, m), n) == IdAfter(firstId, m + n)
  {
  }

  lemma CutIsPrefix(a: seq<bytes>, wire: seq<bytes>, n: nat)
    ensures if |wire| <= n then a + Cut(wire, n) == a + wire else a + Cut(wire, n) < a + wire
  {
    if |wire| <= n {
      assert Cut(wire, n) == wire;
    }
  }

  lemma StripSent(earlier: seq<Datagram>, peer: Addr, pkts: seq<bytes>)
    requires forall i :: 0 <= i < |pkts| ==> !Keepalive(pkts[i])
    ensures Strip(Payloads(earlier + AddressedTo(peer, pkts))) == Strip(Payloads(earlier)) + pkts
  {
    PayloadsAppend(earlier, AddressedTo(peer, pkts));
    assert Payloads(AddressedTo(peer, pkts)) == pkts;
    StripAppend(Payloads(earlier), pkts);
    StripKeepsData(pkts);
  }

  /** What the wire looks like after one more flush of a driver that has sent `earlier`: all that
      was queued, or a proper prefix of it if the budget ran out. */
  lemma FlushedWire(earlier: seq<Datagram>, done: seq<bytes>, queue: seq<bytes>, firstId: u32, peer: Addr, budget: nat)
    requires Strip(Payloads(earlier)) == Wire(done, firstId)
    ensures var wire := Wire(queue, IdAfter(firstId, |done|));
            var after := Strip(Payloads(earlier + AddressedTo(peer, Cut(wire, budget))));
            if |wire| <= budget then after == Wire(done + queue, firstId)
            else after < Wire(done + queue, firstId) && |after| == |Wire(done, firstId)| + budget
  {
    var wire := Wire(queue, IdAfter(firstId, |done|));
    WireIsData(queue, IdAfter(firstId, |done|));
    StripSent(earlier, peer, Cut(wire, budget));
    WireAppend(done, queue, firstId, IdAfter(firstId, |done|));
    CutIsPrefix(Wire(done, firstId), wire, budget);
  }

  lemma KeepaliveInvisible(earlier: seq<bytes>, ka: bytes)
    requires Keepalive(ka)
    ensures Strip(earlier + [ka]) == Strip(earlier)
  {
    assert (earlier + [ka])[..|earlier|] == earlier;
  }

  lemma PayloadsAppend(a: seq<Datagram>, b: seq<Datagram>)
    ensures Payloads(a + b) == Payloads(a) + Payloads(b)
  {
  }

  lemma SentCount(earlier: seq<Datagram>, more: seq<Datagram>, pkt: bytes)
    ensures Count(Payloads(earlier + more), pkt) == Count(Payloads(earlier), pkt) + Count(Payloads(more), pkt)
  {
    PayloadsAppend(earlier, more);
    CountAppend(Payloads(earlier), Payloads(more), pkt);
  }

  /** A flush sends neither probes nor pongs. */
  lemma FlushedCount(earlier: seq<Datagram>, queue: seq<bytes>, firstId: u32, peer: Addr, budget: nat, pkt: bytes)
    requires Keepalive(pkt)
    ensures Count(Payloads(earlier + AddressedTo(peer, Cut(Wire(queue, firstId), budget))), pkt) == Count(Payloads(earlier), pkt)
  {
    var data := Cut(Wire(queue, firstId), budget);
    WireIsData(queue, firstId);
    CountNone(data, pkt);
    SentCount(earlier, AddressedTo(peer, data), pkt);
    assert Payloads(AddressedTo(peer, data)) == data;
  }

  lemma SingleCount(d: Datagram, pkt: bytes)
    ensures Count(Payloads([d]), pkt) == One(d.pkt == pkt)
  {
    var t := Payloads([d]);
    assert t == [d.pkt] && t[..0] == [];
  }

  function One(b: bool): nat {
    if b then 1 else 0
  }

  // ---------------------------------------------------------------- the turns as a value

  function Probes(sent: seq<Datagram>): nat {
    Count(Payloads(sent), PUNCH_PING)
  }

  function Pongs(sent: seq<Datagram>): nat {
    Count(Payloads(sent), PUNCH_PONG)
  }

  predicate Hears(recv: Option<Incoming>, pkt: bytes) {
    recv.Some? && recv.value.pkt == pkt
  }

  /** Where a driver stands between two turns. */
  datatype Driver =
    Driver(pending: Table, peer: Addr, nextId: u32, sent: seq<Datagram>, frames: seq<bytes>, touches: nat)

  predicate Refused(turn: Turn) {
    ChunkTotal(turn.queue) > turn.budget
  }

  /** The driver once it has sent what it has to in this turn. */
  function Spoken(d: Driver, turn: Turn): Driver {
    var data := AddressedTo(d.peer, Cut(Wire(turn.queue, d.nextId), turn.budget));
    var probe := if turn.keepaliveDue && !Refused(turn) then [Datagram(d.peer, PUNCH_PING)] else [];
    d.(sent := d.sent + data + probe, nextId := IdAfter(d.nextId, |turn.queue|))
  }

  /** ... and once it has reacted to what it received. */
  function Heard(d: Driver, recv: Option<Incoming>): Driver
    requires Inv(d.pending)
  {
    if recv.None? then d
    else
      var r := React(d.pending, recv.value.pkt);
      Driver(r.pending, if r.touched then recv.value.src else d.peer, d.nextId,
             d.sent + (if r.reply.Some? then [Datagram(recv.value.src, r.reply.value)] else []),
             d.frames + (if r.frame.Some? then [r.frame.value] else []),
             d.touches + One(r.touched))
  }

  /** The driver after `turns` in which the socket refuses nothing. */
  function Ran(d: Driver, turns: seq<Turn>): (e: Driver)
    requires Inv(d.pending)
    ensures Inv(e.pending)
    decreases |turns|
  {
    if turns == [] then d
    else
      var e, turn := Ran(d, turns[..|turns| - 1]), turns[|turns| - 1];
      HeardKeepsInv(Spoken(e, turn), turn.recv);
      Heard(Spoken(e, turn), turn.recv)
  }

  lemma RanNext(d: Driver, done: seq<Turn>, turn: Turn, more: seq<Turn>)
    requires Inv(d.pending) && more == done + [turn]
    ensures Ran(d, more) == Heard(Spoken(Ran(d, done), turn), turn.recv)
  {
    assert more[..|more| - 1] == done;
  }

  lemma HeardKeepsInv(d: Driver, recv: Option<Incoming>)
    requires Inv(d.pending)
    ensures Inv(Heard(d, recv).pending)
  {
    if recv.Some? {
      ReactIsFeed(d.pending, recv.value.pkt);
      FeedKeepsInv(d.pending, recv.value.pkt);
    }
  }

  predicate NeverRefused(turns: seq<Turn>) {
    forall k :: 0 <= k < |turns| ==> !Refused(turns[k])
  }

  // ---------------------------------------------------------------- what the turns amount to

  /** Where a driver stands after `done`, having started with table `p` and id `firstId`. */
  predicate Progress(d: Driver, p: Table, done: seq<Turn>, firstId: u32)
    requires Inv(p)
  {
    d.frames == Dispatched(p, Received(done)) &&
    d.pending == LinkAfter(p, Received(done)) &&
    Strip(Payloads(d.sent)) == Wire(Queued(done), firstId) &&
    d.nextId == IdAfter(firstId, |Queued(done)|)
  }

  /** What is on the wire once the next queue is sent, as far as the socket takes it. */
  lemma SpokenWire(d: Driver, turn: Turn, done: seq<bytes>, firstId: u32)
    requires Strip(Payloads(d.sent)) == Wire(done, firstId) && d.nextId == IdAfter(firstId, |done|)
    ensures var after := Strip(Payloads(Spoken(d, turn).sent));
            if Refused(turn) then after < Wire(done + turn.queue, firstId) && |after| == ChunkTotal(done) + turn.budget
            else after == Wire(done + turn.queue, firstId)
  {
    var flushed := d.sent + AddressedTo(d.peer, Cut(Wire(turn.queue, d.nextId), turn.budget));
    FlushedWire(d.sent, done, turn.queue, firstId, d.peer, turn.budget);
    WireLength(done, firstId);
    WireLength(turn.queue, d.nextId);
    if turn.keepaliveDue && !Refused(turn) {
      SentKeepalive(flushed, Datagram(d.peer, PUNCH_PING));
    } else {
      assert flushed + [] == flushed;
    }
  }

  lemma SentKeepalive(earlier: seq<Datagram>, d: Datagram)
    requires Keepalive(d.pkt)
    ensures Strip(Payloads(earlier + [d])) == Strip(Payloads(earlier))
  {
    PayloadsAppend(earlier, [d]);
    assert Payloads([d]) == [d.pkt];
    KeepaliveInvisible(Payloads(earlier), d.pkt);
  }

  lemma HeardWire(d: Driver, recv: Option<Incoming>)
    requires Inv(d.pending)
    ensures Strip(Payloads(Heard(d, recv).sent)) == Strip(Payloads(d.sent))
  {
    if recv.Some? && recv.value.pkt == PUNCH_PING {
      SentKeepalive(d.sent, Datagram(recv.value.src, PUNCH_PONG));
    } else {
      assert d.sent + [] == d.sent;
    }
  }

  lemma WireNext(e: Driver, f: Driver, done: seq<Turn>, turn: Turn, more: seq<Turn>, firstId: u32)
    requires Inv(e.pending) && more == done + [turn] && !Refused(turn)
    requires Strip(Payloads(e.sent)) == Wire(Queued(done), firstId) && e.nextId == IdAfter(firstId, |Queued(done)|)
    requires f == Heard(Spoken(e, turn), turn.recv)
    ensures Strip(Payloads(f.sent)) == Wire(Queued(more), firstId) && f.nextId == IdAfter(firstId, |Queued(more)|)
  {
    SpokenWire(e, turn, Queued(done), firstId);
    HeardWire(Spoken(e, turn), turn.recv);
    IdAfterAdds(firstId, |Queued(done)|, |turn.queue|);
    TurnsGrow(done, turn);
    assert |Queued(more)| == |Queued(done)| + |turn.queue|;
  }

  lemma FramesNext(e: Driver, f: Driver, p: Table, done: seq<Turn>, turn: Turn, more: seq<Turn>)
    requires Inv(p) && Inv(e.pending) && more == done + [turn]
    requires e.frames == Dispatched(p, Received(done)) && e.pending == LinkAfter(p, Received(done))
    requires f == Heard(Spoken(e, turn), turn.recv)
    ensures f.frames == Dispatched(p, Received(more)) && f.pending == LinkAfter(p, Received(more))
  {
    DispatchedOne(p, Received(done), turn.recv);
    TurnsGrow(done, turn);
  }

  lemma {:induction false} RanProgress(d: Driver, turns: seq<Turn>, end: Driver)
    requires Inv(d.pending) && d.sent == [] && d.frames == [] && NeverRefused(turns) && end == Ran(d, turns)
    ensures Progress(end, d.pending, turns, d.nextId)
    decreases |turns|
  {
    if turns == [] {
      IdAfterStep(d.nextId, 0);
    } else {
      var done, turn := turns[..|turns| - 1], turns[|turns| - 1];
      assert turns == done + [turn];
      var e := Ran(d, done);
      RanProgress(d, done, e);
      RanNext(d, done, turn, turns);
      WireNext(e, end, done, turn, turns, d.nextId);
      FramesNext(e, end, d.pending, done, turn, turns);
    }
  }

  /** Whom the loop has been talking to by then, and how often it has refreshed the live entry. */
  predicate Talking(sent: seq<Datagram>, peer: Addr, touches: nat, first: Addr, signs: seq<Addr>) {
    touches == |signs| && peer == PeerAfter(first, signs) && ToKnown(sent, first, signs)
  }

  lemma SpokenTalks(d: Driver, turn: Turn, first: Addr, signs: seq<Addr>)
    requires Talking(d.sent, d.peer, d.touches, first, signs)
    ensures var e := Spoken(d, turn); Talking(e.sent, e.peer, e.touches, first, signs)
  {
    var e := Spoken(d, turn);
    assert d.peer == first || d.peer in signs;
    forall k | 0 <= k < |e.sent|
      ensures e.sent[k].to == first || e.sent[k].to in signs
    {
      assert if k < |d.sent| then e.sent[k] == d.sent[k] else e.sent[k].to == d.peer;
    }
  }

  lemma HeardTalks(d: Driver, recv: Option<Incoming>, first: Addr, signs: seq<Addr>)
    requires Inv(d.pending) && Talking(d.sent, d.peer, d.touches, first, signs)
    ensures var e := Heard(d, recv);
            var sign := if recv.Some? && React(d.pending, recv.value.pkt).touched then [recv.value.src] else [];
            Talking(e.sent, e.peer, e.touches, first, signs + sign)
  {
    var e := Heard(d, recv);
    forall k | 0 <= k < |e.sent| && k < |d.sent|
      ensures e.sent[k] == d.sent[k]
    {
    }
  }

  lemma TalkingNext(e: Driver, f: Driver, p: Table, first: Addr, done: seq<Turn>, turn: Turn, more: seq<Turn>)
    requires Inv(p) && Inv(e.pending) && e.pending == LinkAfter(p, Received(done)) && more == done + [turn]
    requires Talking(e.sent, e.peer, e.touches, first, Signs(p, done))
    requires f == Heard(Spoken(e, turn), turn.recv)
    ensures Talking(f.sent, f.peer, f.touches, first, Signs(p, more))
  {
    SpokenTalks(e, turn, first, Signs(p, done));
    HeardTalks(Spoken(e, turn), turn.recv, first, Signs(p, done));
    assert more[..|done|] == done;
  }

  lemma {:induction false} RanTalks(d: Driver, turns: seq<Turn>, end: Driver)
    requires Inv(d.pending) && d.sent == [] && d.frames == [] && d.touches == 0 && NeverRefused(turns) && end == Ran(d, turns)
    ensures Talking(end.sent, end.peer, end.touches, d.peer, Signs(d.pending, turns))
    decreases |turns|
  {
    if turns != [] {
      var done, turn := turns[..|turns| - 1], turns[|turns| - 1];
      assert turns == done + [turn];
      var e := Ran(d, done);
      RanTalks(d, done, e);
      RanProgress(d, done, e);
      RanNext(d, done, turn, turns);
      TalkingNext(e, end, d.pending, d.peer, done, turn, turns);
    }
  }

  /** Probes sent are keepalives due, pongs sent are probes heard, and the live entry is refreshed for
      each probe, each pong and each frame. */
  predicate Tally(probes: nat, pongs: nat, touches: nat, frames: nat, done: seq<Turn>) {
    probes == KeepalivesDue(done) && pongs == Count(Received(done), PUNCH_PING) &&
    touches == Count(Received(done), PUNCH_PING) + Count(Received(done), PUNCH_PONG) + frames
  }

  lemma SpokenTally(d: Driver, turn: Turn)
    ensures var e := Spoken(d, turn);
            Probes(e.sent) == Probes(d.sent) + One(turn.keepaliveDue && !Refused(turn)) && Pongs(e.sent) == Pongs(d.sent)
  {
    var flushed := d.sent + AddressedTo(d.peer, Cut(Wire(turn.queue, d.nextId), turn.budget));
    FlushedCount(d.sent, turn.queue, d.nextId, d.peer, turn.budget, PUNCH_PING);
    FlushedCount(d.sent, turn.queue, d.nextId, d.peer, turn.budget, PUNCH_PONG);
    if turn.keepaliveDue && !Refused(turn) {
      OneSent(flushed, Datagram(d.peer, PUNCH_PING));
    } else {
      assert flushed + [] == flushed;
    }
  }

  lemma OneSent(earlier: seq<Datagram>, d: Datagram)
    ensures Probes(earlier + [d]) == Probes(earlier) + One(d.pkt == PUNCH_PING)
    ensures Pongs(earlier + [d]) == Pongs(earlier) + One(d.pkt == PUNCH_PONG)
  {
    SentCount(earlier, [d], PUNCH_PING);
    SentCount(earlier, [d], PUNCH_PONG);
    SingleCount(d, PUNCH_PING);
    SingleCount(d, PUNCH_PONG);
  }

  lemma HeardTally(d: Driver, recv: Option<Incoming>)
    requires Inv(d.pending)
    ensures var e := Heard(d, recv);
            Probes(e.sent) == Probes(d.sent) && Pongs(e.sent) == Pongs(d.sent) + One(Hears(recv, PUNCH_PING)) &&
            e.touches + |d.frames| ==
              d.touches + One(Hears(recv, PUNCH_PING)) + One(Hears(recv, PUNCH_PONG)) + |e.frames|
  {
    if Hears(recv, PUNCH_PING) {
      OneSent(d.sent, Datagram(recv.value.src, PUNCH_PONG));
    } else {
      assert d.sent + [] == d.sent;
    }
  }

  lemma CountNext(done: seq<Turn>, turn: Turn, pkt: bytes)
    ensures Count(Received(done + [turn]), pkt) == Count(Received(done), pkt) + One(Hears(turn.recv, pkt))
  {
    TurnsGrow(done, turn);
    if turn.recv.Some? {
      assert (Received(done) + [turn.recv.value.pkt])[..|Received(done)|] == Received(done);
    } else {
      assert Received(done) + [] == Received(done);
    }
  }

  lemma TallyNext(e: Driver, f: Driver, done: seq<Turn>, turn: Turn, more: seq<Turn>)
    requires Inv(e.pending) && more == done + [turn] && !Refused(turn)
    requires Tally(Probes(e.sent), Pongs(e.sent), e.touches, |e.frames|, done)
    requires f == Heard(Spoken(e, turn), turn.recv)
    ensures Tally(Probes(f.sent), Pongs(f.sent), f.touches, |f.frames|, more)
  {
    SpokenTally(e, turn);
    HeardTally(Spoken(e, turn), turn.recv);
    CountNext(done, turn, PUNCH_PING);
    CountNext(done, turn, PUNCH_PONG);
    assert more[..|done|] == done;
  }

  lemma {:induction false} RanTallies(d: Driver, turns: seq<Turn>, end: Driver)
    requires Inv(d.pending) && d.sent == [] && d.frames == [] && d.touches == 0 && NeverRefused(turns) && end == Ran(d, turns)
    ensures Tally(Probes(end.sent), Pongs(end.sent), end.touches, |end.frames|, turns)
    decreases |turns|
  {
    if turns != [] {
      var done, turn := turns[..|turns| - 1], turns[|turns| - 1];
      assert turns == done + [turn];
      var e := Ran(d, done);
      RanTallies(d, done, e);
      RanNext(d, done, turn, turns);
      TallyNext(e, end, done, turn, turns);
    }
  }

  /** What is left of a log without probes and pongs. */
  function DataOf(sent: seq<Datagram>): seq<Datagram> {
    if sent == [] then []
    else DataOf(sent[..|sent| - 1]) + (if Keepalive(sent[|sent| - 1].pkt) then [] else [sent[|sent| - 1]])
  }

  /** The chunks of all queues, each queue under the ids that follow those before it and addressed to
      where the latest sign of life of the turns before it came from. */
  function DataLog(p: Table, first: Addr, firstId: u32, turns: seq<Turn>): seq<Datagram>
    requires Inv(p)
  {
    if turns == [] then []
    else
      var init, turn := turns[..|turns| - 1], turns[|turns| - 1];
      DataLog(p, first, firstId, init) +
      AddressedTo(PeerAfter(first, Signs(p, init)), Wire(turn.queue, IdAfter(firstId, |Queued(init)|)))
  }

  lemma {:induction false} DataAppend(a: seq<Datagram>, b: seq<Datagram>)
    ensures DataOf(a + b) == DataOf(a) + DataOf(b)
    decreases |b|
  {
    if b == [] {
      assert a + b == a;
    } else {
      assert (a + b)[..|a + b| - 1] == a + b[..|b| - 1];
      DataAppend(a, b[..|b| - 1]);
    }
  }

  lemma {:induction false} DataKept(sent: seq<Datagram>)
    requires forall k :: 0 <= k < |sent| ==> !Keepalive(sent[k].pkt)
    ensures DataOf(sent) == sent
    decreases |sent|
  {
    if sent != [] {
      DataKept(sent[..|sent| - 1]);
    }
  }

  lemma DataIgnores(sent: seq<Datagram>, d: Datagram)
    requires Keepalive(d.pkt)
    ensures DataOf(sent + [d]) == DataOf(sent)
  {
    assert (sent + [d])[..|sent|] == sent;
  }

  lemma SpokenData(d: Driver, turn: Turn)
    ensures DataOf(Spoken(d, turn).sent) == DataOf(d.sent) + AddressedTo(d.peer, Cut(Wire(turn.queue, d.nextId), turn.budget))
  {
    var data := AddressedTo(d.peer, Cut(Wire(turn.queue, d.nextId), turn.budget));
    WireIsData(turn.queue, d.nextId);
    DataAppend(d.sent, data);
    DataKept(data);
    if turn.keepaliveDue && !Refused(turn) {
      DataIgnores(d.sent + data, Datagram(d.peer, PUNCH_PING));
    } else {
      assert d.sent + data + [] == d.sent + data;
    }
  }

  lemma HeardData(d: Driver, recv: Option<Incoming>)
    requires Inv(d.pending)
    ensures DataOf(Heard(d, recv).sent) == DataOf(d.sent)
  {
    if recv.Some? && recv.value.pkt == PUNCH_PING {
      DataIgnores(d.sent, Datagram(recv.value.src, PUNCH_PONG));
    } else {
      assert d.sent + [] == d.sent;
    }
  }

  lemma DataNext(e: Driver, f: Driver, p: Table, first: Addr, firstId: u32, done: seq<Turn>, turn: Turn, more: seq<Turn>)
    requires Inv(p) && Inv(e.pending) && more == done + [turn] && !Refused(turn)
    requires DataOf(e.sent) == DataLog(p, first, firstId, done)
    requires e.peer == PeerAfter(first, Signs(p, done)) && e.nextId == IdAfter(firstId, |Queued(done)|)
    requires f == Heard(Spoken(e, turn), turn.recv)
    ensures DataOf(f.sent) == DataLog(p, first, firstId, more)
  {
    SpokenData(e, turn);
    HeardData(Spoken(e, turn), turn.recv);
    WireLength(turn.queue, e.nextId);
    assert more[..|done|] == done;
  }

  lemma {:induction false} RanData(d: Driver, turns: seq<Turn>, end: Driver)
    requires Inv(d.pending) && d.sent == [] && d.frames == [] && d.touches == 0 && NeverRefused(turns) && end == Ran(d, turns)
    ensures DataOf(end.sent) == DataLog(d.pending, d.peer, d.nextId, turns)
    decreases |turns|
  {
    if turns != [] {
      var done, turn := turns[..|turns| - 1], turns[|turns| - 1];
      assert turns == done + [turn];
      var e := Ran(d, done);
      RanData(d, done, e);
      RanNext(d, done, turn, turns);
      RanProgress(d, done, e);
      RanTalks(d, done, e);
      DataNext(e, end, d.pending, d.peer, d.nextId, done, turn, turns);
    }
  }

  // ---------------------------------------------------------------- the loop

  /** The driver as it stands, with what the loop has gathered. */
  function View(link: PunchLink, frames: seq<bytes>, touches: nat): Driver
    reads link
  {
    Driver(link.pending, link.peerAddr, link.nextMsgId, link.sent, frames, touches)
  }

  /** One turn. */
  method Drive(link: PunchLink, turn: Turn, before: seq<bytes>, touchesBefore: nat)
    returns (frames: seq<bytes>, touches: nat, dead: bool)
    requires link.Valid()
    modifies link
    ensures link.Valid() && (dead <==> Refused(turn))
    ensures var spoken := Spoken(old(View(link, before, touchesBefore)), turn);
            if dead then link.sent == spoken.sent && frames == before && touches == touchesBefore &&
                         link.pending == old(link.pending) && link.peerAddr == old(link.peerAddr)
            else View(link, frames, touches) == Heard(spoken, turn.recv)
  {
    frames, touches := before, touchesBefore;
    ghost var spoken := Spoken(View(link, before, touchesBefore), turn);
    WireLength(turn.queue, link.nextMsgId);
    dead := link.Flush(turn.queue, turn.budget);
    if dead {
      assert link.sent + [] == link.sent;
      return;
    }
    if turn.keepaliveDue {
      link.sent := link.sent + [Datagram(link.peerAddr, PUNCH_PING)];
    } else {
      assert link.sent + [] == link.sent;
    }
    assert View(link, before, touchesBefore) == spoken;
    frames, touches := Listen(link, turn.recv, before, touchesBefore);
  }

  /** The receiving half of a turn. */
  method Listen(link: PunchLink, recv: Option<Incoming>, before: seq<bytes>, touchesBefore: nat)
    returns (frames: seq<bytes>, touches: nat)
    requires link.Valid()
    modifies link`pending, link`peerAddr, link`sent
    ensures link.Valid() && View(link, frames, touches) == Heard(old(View(link, before, touchesBefore)), recv)
  {
    frames, touches := before, touchesBefore;
    if recv.Some? {
      var touched, frame := link.OnDatagram(recv.value.pkt, recv.value.src);
      if frame.Some? {
        frames := frames + [frame.value];
      }
      if touched {
        touches := touches + 1;
      }
    }
  }

  /** The link is wanted and the socket takes everything, in every turn. */
  predicate Unhindered(turns: seq<Turn>) {
    forall k :: 0 <= k < |turns| ==> turns[k].wanted && !Refused(turns[k])
  }

  /** The loop stops after `n` turns exactly if there are no more, the last one found the link no longer
      wanted, or the socket refuses a datagram of the next queue; it refused none before. */
  predicate Stops(turns: seq<Turn>, n: nat, dead: bool) {
    n <= |turns| && NeverRefused(turns[..n]) &&
    if dead then n < |turns| && Refused(turns[n]) && Unhindered(turns[..n])
    else if n == 0 then turns == []
    else Unhindered(turns[..n - 1]) && (n == |turns| || !turns[n - 1].wanted)
  }

  lemma StopsDead(turns: seq<Turn>, n: nat, done: seq<Turn>)
    requires n < |turns| && done == turns[..n] && Unhindered(done) && Refused(turns[n])
    ensures Stops(turns, n, true)
  {
  }

  /** After one more turn. */
  lemma StopsUnwanted(turns: seq<Turn>, n: nat, done: seq<Turn>, more: seq<Turn>)
    requires n < |turns| && done == turns[..n] && more == turns[..n + 1] && Unhindered(done) && !Refused(turns[n])
    ensures NeverRefused(more) && if turns[n].wanted then Unhindered(more) else Stops(turns, n + 1, false)
  {
    assert forall k :: 0 <= k < n ==> more[k] == done[k];
    assert turns[..n + 1 - 1] == done;
  }

  lemma StopsAtEnd(turns: seq<Turn>)
    requires Unhindered(turns)
    ensures Stops(turns, |turns|, false)
  {
    assert turns[..|turns|] == turns;
  }

  /** The chunks sent are those of the turns done and, if the socket has refused one, some more, to where
      the peer is by now. */
  predicate DataSent(data: seq<Datagram>, log: seq<Datagram>, peer: Addr, dead: bool) {
    if dead then SentTo(data, log, peer) else data == log
  }

  lemma DeadData(d: Driver, turn: Turn, log: seq<Datagram>)
    requires DataOf(d.sent) == log
    ensures SentTo(DataOf(Spoken(d, turn).sent), log, d.peer)
  {
    SpokenData(d, turn);
  }

  /** What has been sent since is addressed to `peer`. */
  predicate SentTo(sent: seq<Datagram>, before: seq<Datagram>, peer: Addr) {
    before <= sent && forall k :: |before| <= k < |sent| ==> sent[k].to == peer
  }

  /** What the loop leaves behind. */
  predicate Outcome(start: Driver, turns: seq<Turn>, n: nat, dead: bool, end: Driver)
    requires Inv(start.pending) && n <= |turns| && (dead ==> n < |turns|)
  {
    var done := turns[..n];
    end.frames == Dispatched(start.pending, Received(done)) &&
    end.pending == LinkAfter(start.pending, Received(done)) &&
    Talking(end.sent, end.peer, end.touches, start.peer, Signs(start.pending, done)) &&
    Tally(Probes(end.sent), Pongs(end.sent), end.touches, |end.frames|, done) &&
    DataSent(DataOf(end.sent), DataLog(start.pending, start.peer, start.nextId, done), end.peer, dead) &&
    if dead then
      Strip(Payloads(end.sent)) < Wire(Queued(turns[..n + 1]), start.nextId) &&
      |Strip(Payloads(end.sent))| == ChunkTotal(Queued(done)) + turns[n].budget
    else Strip(Payloads(end.sent)) == Wire(Queued(done), start.nextId)
  }

  lemma EndsWell(start: Driver, turns: seq<Turn>, n: nat)
    requires Inv(start.pending) && start.sent == [] && start.frames == [] && start.touches == 0
    requires n <= |turns| && NeverRefused(turns[..n])
    ensures Outcome(start, turns, n, false, Ran(start, turns[..n]))
  {
    var done, end := turns[..n], Ran(start, turns[..n]);
    RanProgress(start, done, end);
    RanTalks(start, done, end);
    RanTallies(start, done, end);
    RanData(start, done, end);
  }

  lemma DeadRest(d: Driver, turn: Turn, first: Addr, signs: seq<Addr>, done: seq<Turn>)
    requires Refused(turn) && Talking(d.sent, d.peer, d.touches, first, signs)
    requires Tally(Probes(d.sent), Pongs(d.sent), d.touches, |d.frames|, done)
    ensures var e := Spoken(d, turn);
            Talking(e.sent, e.peer, e.touches, first, signs) && Tally(Probes(e.sent), Pongs(e.sent), e.touches, |e.frames|, done)
  {
    SpokenTalks(d, turn, first, signs);
    SpokenTally(d, turn);
  }

  lemma EndsDead(start: Driver, turns: seq<Turn>, n: nat, end: Driver)
    requires Inv(start.pending) && start.sent == [] && start.frames == [] && start.touches == 0
    requires n < |turns| && NeverRefused(turns[..n]) && Refused(turns[n])
    requires end == Spoken(Ran(start, turns[..n]), turns[n]).(nextId := end.nextId)
    ensures Outcome(start, turns, n, true, end)
  {
    var done, d := turns[..n], Ran(start, turns[..n]);
    EndsWell(start, turns, n);
    RanProgress(start, done, d);
    DeadWire(d, turns[n], done, turns[..n + 1], start.nextId);
    DeadRest(d, turns[n], start.peer, Signs(start.pending, done), done);
    DeadData(d, turns[n], DataLog(start.pending, start.peer, start.nextId, done));
    assert end.sent == Spoken(d, turns[n]).sent;
  }

  lemma DeadWire(d: Driver, turn: Turn, done: seq<Turn>, more: seq<Turn>, firstId: u32)
    requires Strip(Payloads(d.sent)) == Wire(Queued(done), firstId) && d.nextId == IdAfter(firstId, |Queued(done)|)
    requires Refused(turn) && more == done + [turn]
    ensures var after := Strip(Payloads(Spoken(d, turn).sent));
            after < Wire(Queued(more), firstId) && |after| == ChunkTotal(Queued(done)) + turn.budget
  {
    SpokenWire(d, turn, Queued(done), firstId);
    TurnsGrow(done, turn);
  }

  /** The loop of `run_punch_conn`. Whatever it meets, keepalives aside it puts on the wire exactly
      the chunks of the frames it was given, in order and under consecutive ids, up to the datagram the
      socket refuses if it does; it sends a probe whenever a keepalive is due and a pong for each probe
      it hears; and it dispatches exactly what the datagrams it has received make. It refreshes the live
      entry once for each sign of life, follows the peer to where the latest came from, sends the chunks of
      each turn to where that was by then, and nothing to any address but the proven one and those
      (`Outcome`). It goes on for as long as the link is wanted and
      the socket works (`Stops`). */
  method RunDriver(link: PunchLink, turns: seq<Turn>)
    returns (frames: seq<bytes>, touches: nat, turnsDone: nat, dead: bool)
    requires link.Valid() && link.sent == []
    modifies link
    ensures link.Valid() && Stops(turns, turnsDone, dead)
    ensures Outcome(old(View(link, [], 0)), turns, turnsDone, dead, View(link, frames, touches))
  {
    frames, touches, turnsDone, dead := [], 0, 0, false;
    ghost var start, done := View(link, [], 0), turns[..0];
    while turnsDone < |turns|
      invariant link.Valid() && turnsDone <= |turns| && done == turns[..turnsDone] && Unhindered(done)
      invariant View(link, frames, touches) == Ran(start, done)
      decreases |turns| - turnsDone
    {
      ghost var more := turns[..turnsDone + 1];
      RanNext(start, done, turns[turnsDone], more);
      frames, touches, dead := Drive(link, turns[turnsDone], frames, touches);
      if dead {
        StopsDead(turns, turnsDone, done);
        EndsDead(start, turns, turnsDone, View(link, frames, touches));
        return;
      }
      StopsUnwanted(turns, turnsDone, done, more);
      done := more;
      turnsDone := turnsDone + 1;
      if !turns[turnsDone - 1].wanted {
        EndsWell(start, turns, turnsDone);
        return;
      }
    }
    assert done == turns;
    StopsAtEnd(turns);
    EndsWell(start, turns, turnsDone);
  }

  lemma TurnsGrow(done: seq<Turn>, turn: Turn)
    ensures Queued(done + [turn]) == Queued(done) + turn.queue
    ensures Received(done + [turn]) == Received(done) + (if turn.recv.Some? then [turn.recv.value.pkt] else [])
  {
    assert (done + [turn])[..|done|] == done;
  }

  lemma DispatchedOne(p: Table, t: seq<bytes>, recv: Option<Incoming>)
    requires Inv(p)
    ensures var u := t + (if recv.Some? then [recv.value.pkt] else []);
            if recv.None? then Dispatched(p, u) == Dispatched(p, t) && LinkAfter(p, u) == LinkAfter(p, t)
            else
              var r := React(LinkAfter(p, t), recv.value.pkt);
              LinkAfter(p, u) == r.pending && Dispatched(p, u) == Dispatched(p, t) + (if r.frame.Some? then [r.frame.value] else [])
  {
    if recv.Some? {
      assert (t + [recv.value.pkt])[..|t|] == t;
    } else {
      assert t + [] == t;
    }
  }

  // ---------------------------------------------------------------- two drivers

  lemma DispatchedPrefix(t: seq<bytes>, whole: seq<bytes>)
    requires t <= whole
    ensures Dispatched(map[], t) <= Dispatched(map[], whole)
  {
    assert whole == t + whole[|t|..];
    DispatchedAppend(map[], t, whole[|t|..]);
  }

  lemma StripPrefix(t: seq<bytes>, whole: seq<bytes>)
    requires t <= whole
    ensures Strip(t) <= Strip(whole)
  {
    assert whole == t + whole[|t|..];
    StripAppend(t, whole[|t|..]);
  }

  /** What a driver that has received, in order, some of what a wire carries has dispatched. */
  lemma PartOfWire(received: seq<bytes>, carried: seq<bytes>, frames: seq<bytes>, firstId: u32)
    requires received <= carried && Strip(carried) <= Wire(frames, firstId)
    requires forall j :: 0 <= j < |frames| ==> Fits(frames[j])
    ensures Dispatched(map[], received) <= frames
  {
    StripPrefix(received, carried);
    DispatchedPrefix(Strip(received), Wire(frames, firstId));
    StripIsInvisible(map[], received);
    WireInOrder(frames, firstId);
  }

  lemma {:induction false} StripKeepsChunk(x: bytes, t: seq<bytes>)
    requires x in t && DecodeChunk(x).Some?
    ensures x in Strip(t)
    decreases |t|
  {
    if x in t[..|t| - 1] {
      StripKeepsChunk(x, t[..|t| - 1]);
    } else {
      assert t[|t| - 1] == x && !Keepalive(x);
    }
  }

  lemma {:induction false} DispatchedComesOut(t: seq<bytes>, frame: bytes) returns (k: nat)
    requires frame in Dispatched(map[], t)
    ensures HandsOut(t, k, frame)
    decreases |t|
  {
    var init, x := t[..|t| - 1], t[|t| - 1];
    if frame in Dispatched(map[], init) {
      k := DispatchedComesOut(init, frame);
      assert t[..k] == init[..k];
    } else {
      k := |t| - 1;
      ReactIsFeed(LinkAfter(map[], init), x);
    }
  }

  /** What a driver has dispatched that has received, in any order and any number of times, chunks that
      a wire carries. */
  lemma ShuffledWire(received: seq<bytes>, carried: seq<bytes>, frames: seq<bytes>, firstId: u32, frame: bytes)
    requires OnWire(received, carried) && Strip(carried) <= Wire(frames, firstId)
    requires AllFit(frames) && |frames| <= 0x1_0000_0000 && frame in Dispatched(map[], received)
    ensures frame in frames
  {
    var wire := Wire(frames, firstId);
    forall k | 0 <= k < |received| && DecodeChunk(received[k]).Some?
      ensures received[k] in wire
    {
      StripKeepsChunk(received[k], carried);
    }
    var k := DispatchedComesOut(received, frame);
    assert OnWire(received, wire) && HandsOut(received, k, frame);
    OnlyFramesComeOut(frames, firstId, frame);
  }

  /** End to end: two drivers, `b` receiving what `a` sends. An unhindered driver makes all its turns.
      However the network loses, repeats and reorders, `b` dispatches nothing but frames queued at `a`,
      if they fit the limit and no id has come round twice. If it only stops delivering at some point,
      `b` has dispatched the first so many of them, in order; and once it has delivered all, `b` has
      dispatched exactly the frames queued if and only if all of them fit. */
  method RunLink(a: PunchLink, b: PunchLink, turnsA: seq<Turn>, turnsB: seq<Turn>)
    returns (frames: seq<bytes>, doneA: nat, deadA: bool, doneB: nat)
    requires a != b && a.Valid() && b.Valid() && a.sent == b.sent == [] && b.pending == map[]
    modifies a, b
    ensures doneA <= |turnsA| && doneB <= |turnsB| && (deadA ==> doneA < |turnsA|)
    ensures Unhindered(turnsA) ==> doneA == |turnsA| && !deadA
    ensures Unhindered(turnsB) ==> doneB == |turnsB|
    ensures var queued := Queued(turnsA[..if deadA then doneA + 1 else doneA]);
            var received := Received(turnsB[..doneB]);
            (OnWire(received, Payloads(a.sent)) && AllFit(queued) && |queued| <= 0x1_0000_0000 ==>
              forall m :: 0 <= m < |frames| ==> frames[m] in queued) &&
            (received <= Payloads(a.sent) && AllFit(queued) ==> frames <= queued) &&
            (received == Payloads(a.sent) && !deadA ==> (frames == queued <==> AllFit(queued)))
  {
    ghost var firstId := a.nextMsgId;
    var framesA, touchesA, touchesB, deadB;
    framesA, touchesA, doneA, deadA := RunDriver(a, turnsA);
    frames, touchesB, doneB, deadB := RunDriver(b, turnsB);
    ghost var queued := Queued(turnsA[..if deadA then doneA + 1 else doneA]);
    LinkPromises(Received(turnsB[..doneB]), Payloads(a.sent), queued, firstId, !deadA);
  }

  lemma LinkPromises(received: seq<bytes>, carried: seq<bytes>, queued: seq<bytes>, firstId: u32, whole: bool)
    requires Strip(carried) <= Wire(queued, firstId) && (whole ==> Strip(carried) == Wire(queued, firstId))
    ensures var frames := Dispatched(map[], received);
            (OnWire(received, carried) && AllFit(queued) && |queued| <= 0x1_0000_0000 ==>
              forall m :: 0 <= m < |frames| ==> frames[m] in queued) &&
            (received <= carried && AllFit(queued) ==> frames <= queued) &&
            (received == carried && whole ==> (frames == queued <==> AllFit(queued)))
  {
    var frames := Dispatched(map[], received);
    if OnWire(received, carried) && AllFit(queued) && |queued| <= 0x1_0000_0000 {
      forall m | 0 <= m < |frames|
        ensures frames[m] in queued
      {
        ShuffledWire(received, carried, queued, firstId, frames[m]);
      }
    }
    if received <= carried && AllFit(queued) {
      PartOfWire(received, carried, queued, firstId);
    }
    if received == carried && whole {
      FifoLinkIsIdentity(queued, firstId, received);
    }
  }
}
