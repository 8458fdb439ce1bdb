/** The driver of an established punched link (`run_punch_conn`), with the table of partial
    messages updated in place. */
module PunchLinks {
  import opened Bytes
  import opened Base
  import opened Chunking

  /** "mdpunch1": the hole-punch magic, the handshake probe and the keepalive are the same bytes. */
  const PUNCH_PING: bytes := [0x6d, 0x64, 0x70, 0x75, 0x6e, 0x63, 0x68, 0x31]
  /** "mdpong01" */
  const PUNCH_PONG: bytes := [0x6d, 0x64, 0x70, 0x6f, 0x6e, 0x67, 0x30, 0x31]

  /** The datagrams of a queue of frames, ids taken from a wrapping 32-bit counter. */
  function Wire(frames: seq<bytes>, firstId: u32): seq<bytes> {
    if frames == [] then []
    else Packets(firstId, frames[0]) + Wire(frames[1..], NextId(firstId))
  }

  /** `wrapping_add(1)`. */
  function NextId(id: u32): u32 {
    (id + 1) % 0x1_0000_0000
  }

  /** The id `k` frames later. */
  function IdAfter(first: u32, k: nat): u32 {
    (first + k) % 0x1_0000_0000
  }

  lemma IdAfterStep(first: u32, k: nat)
    ensures IdAfter(first, k + 1) == NextId(IdAfter(first, k))
    ensures IdAfter(first, 0) == first
  {
  }

  function AddressedTo(peer: Addr, pkts: seq<bytes>): (s: seq<Datagram>)
    ensures |s| == |pkts|
  {
    seq(|pkts|, i requires 0 <= i < |pkts| => Datagram(peer, pkts[i]))
  }

  lemma AddressedToAppend(peer: Addr, a: seq<bytes>, b: seq<bytes>)
    ensures AddressedTo(peer, a + b) == AddressedTo(peer, a) + AddressedTo(peer, b)
  {
  }

  /** The first `n` datagrams, or all of them if there are fewer. */
  function Cut(pkts: seq<bytes>, n: nat): seq<bytes> {
    pkts[..Min(n, |pkts|)]
  }

  /** What the socket has accepted after one more frame of a flush, with `left` sends still
      possible: everything, or the prefix of the whole wire that the budget allowed. */
  lemma FlushStep(sent: seq<Datagram>, peer: Addr, done: seq<bytes>, pkts: seq<bytes>, rest: seq<bytes>, left: nat)
    ensures var after := sent + AddressedTo(peer, done) + AddressedTo(peer, Cut(pkts, left));
            if |pkts| <= left then after == sent + AddressedTo(peer, done + pkts)
            else after == sent + AddressedTo(peer, Cut(done + (pkts + rest), |done| + left))
    ensures done + pkts + rest == done + (pkts + rest)
  {
    AddressedToAppend(peer, done, Cut(pkts, left));
    if |pkts| <= left {
      assert Cut(pkts, left) == pkts;
    } else {
      assert Cut(done + (pkts + rest), |done| + left) == done + Cut(pkts, left);
    }
  }

  /** What the driver does with one received datagram. */
  datatype Reaction = Reaction(pending: Table, touched: bool, reply: Option<bytes>, frame: Option<bytes>)

  function React(p: Table, pkt: bytes): Reaction
    requires Inv(p)
  {
    if pkt == PUNCH_PING then Reaction(p, true, Some(PUNCH_PONG), None)
    else if pkt == PUNCH_PONG then Reaction(p, true, None, None)
    else
      var r := Feed(p, pkt);
      Reaction(r.pending, r.out.Some?, None, r.out)
  }

  class PunchLink {
    var peerAddr: Addr
    var nextMsgId: u32
    var pending: Table
    /** Every datagram the socket has accepted from this driver, oldest first. */
    var sent: seq<Datagram>

    ghost predicate Valid()
      reads this
    {
      Inv(pending)
    }

    constructor (peer: Addr)
      ensures Valid() && pending == map[] && nextMsgId == 0 && sent == [] && peerAddr == peer
    {
      peerAddr := peer;
      nextMsgId := 0;
      pending := map[];
      sent := [];
    }

    /** The loop that concatenates the slots of a finished message. */
    method Assemble(parts: seq<Option<bytes>>) returns (out: Option<bytes>)
      ensures out == Join(parts)
    {
      var acc: bytes := [];
      for i := 0 to |parts|
        invariant Join(parts[..i]) == Some(acc)
      {
        assert parts[..i + 1][..i] == parts[..i];
        if parts[i].None? {
          JoinWhenFull(parts);
          return None;
        }
        acc := acc + parts[i].value;
      }
      assert parts[..|parts|] == parts;
      out := Some(acc);
    }

    /** `reasm_feed`: updates the table in place and hands out a message when one is complete. */
    method ReasmFeed(pkt: bytes) returns (out: Option<bytes>)
      requires Valid()
      modifies this`pending
      ensures Valid()
      ensures pending == Feed(old(pending), pkt).pending
      ensures out == Feed(old(pending), pkt).out
    {
      FeedKeepsInv(pending, pkt);
      if |pkt| < CHUNK_HDR || pkt[..4] != CHUNK_MAGIC {
        return None;
      }
      var id := DecodeU32(pkt[4], pkt[5], pkt[6], pkt[7]);
      var total := DecodeU16(pkt[8], pkt[9]);
      var index := DecodeU16(pkt[10], pkt[11]);
      if total == 0 || index >= total {
        return None;
      }
      out := Collect(Chunk(id, total, index, pkt[CHUNK_HDR..]));
    }

    /** The part of `reasm_feed` after the header checks. */
    method Collect(c: Chunk) returns (out: Option<bytes>)
      requires Valid() && c.index < c.total
      modifies this`pending
      ensures FeedResult(pending, out) == FeedChunk(old(pending), c)
    {
      OpenEntry(c);
      if pending[c.id].total != c.total {
        return None;
      }
      Store(c.id, c.index, c.payload);
      out := Settle(c.id);
    }

    /** Sheds a full table for a new id and makes sure the chunk's id has an entry. */
    method OpenEntry(c: Chunk)
      requires Valid() && c.index < c.total
      modifies this`pending
      ensures var q := Shed(old(pending), c.id);
              pending == q[c.id := EntryFor(q, c)] && (c.id in q ==> pending == q)
    {
      if |pending| >= REASM_MAX && c.id !in pending {
        pending := map[];
      }
      if c.id !in pending {
        pending := pending[c.id := Partial(c.total, 0, NoParts(c.total))];
      }
    }

    /** Takes a finished message out of the table. */
    method Settle(id: u32) returns (out: Option<bytes>)
      requires id in pending
      modifies this`pending
      ensures FeedResult(pending, out) == Chunking.Settle(old(pending), id)
    {
      if pending[id].received == pending[id].total {
        out := Assemble(pending[id].parts);
        pending := pending - {id};
      } else {
        out := None;
      }
    }

    /** Puts a payload in its slot unless the slot is taken. */
    method Store(id: u32, index: u16, payload: bytes)
      requires id in pending && Incomplete(pending[id]) && index < pending[id].total
      modifies this`pending
      ensures pending == old(pending)[id := Fill(old(pending[id]), index, payload)]
    {
      var e := pending[id];
      if e.parts[index].None? {
        pending := pending[id := e.(received := e.received + 1, parts := e.parts[index := Some(payload)])];
      }
    }

    /** `send_chunked` on a socket that accepts `budget` more datagrams and then fails. */
    method SendChunked(msgId: u32, data: bytes, budget: nat) returns (ok: bool)
      modifies this`sent
      ensures ok <==> |Packets(msgId, data)| <= budget
      ensures sent == old(sent) + AddressedTo(peerAddr, Cut(Packets(msgId, data), budget))
    {
      var count := ChunkCount(data);
      var total := count % 0x1_0000;
      ghost var pkts := Packets(msgId, data);
      for i := 0 to count
        invariant i <= budget
        invariant sent == old(sent) + AddressedTo(peerAddr, pkts[..i])
      {
        var pkt := CHUNK_MAGIC + EncodeU32(msgId) + EncodeU16(total) + EncodeU16(i % 0x1_0000)
                   + data[i * CHUNK_PAYLOAD .. Min(|data|, (i + 1) * CHUNK_PAYLOAD)];
        assert pkt == pkts[i];
        if i == budget {
          return false;
        }
        sent := sent + [Datagram(peerAddr, pkt)];
        assert AddressedTo(peerAddr, pkts[..i + 1]) == AddressedTo(peerAddr, pkts[..i]) + [Datagram(peerAddr, pkt)];
      }
      ok := true;
    }

    /** Drains the queue of outgoing frames; `dead` when the socket failed on the way. */
    method Flush(queue: seq<bytes>, budget: nat) returns (dead: bool)
      modifies this`sent, this`nextMsgId
      ensures !dead ==> nextMsgId == IdAfter(old(nextMsgId), |queue|)
      ensures dead <==> |Wire(queue, old(nextMsgId))| > budget
      ensures sent == old(sent) + AddressedTo(peerAddr, Cut(Wire(queue, old(nextMsgId)), budget))
    {
      IdAfterStep(nextMsgId, 0);
      var left: nat := budget;
      ghost var wire := Wire(queue, nextMsgId);
      ghost var done: seq<bytes> := [];
      for k := 0 to |queue|
        invariant wire == done + Wire(queue[k..], nextMsgId)
        invariant |done| + left == budget && left >= 0
        invariant sent == old(sent) + AddressedTo(peerAddr, done)
        invariant nextMsgId == IdAfter(old(nextMsgId), k)
      {
        var id := nextMsgId;
        IdAfterStep(old(nextMsgId), k);
        nextMsgId := NextId(nextMsgId);
        ghost var pkts := Packets(id, queue[k]);
        assert queue[k..][1..] == queue[k + 1..];
        var ok := SendChunked(id, queue[k], left);
        FlushStep(old(sent), peerAddr, done, pkts, Wire(queue[k + 1..], nextMsgId), left);
        if !ok {
          return true;
        }
        left := left - ChunkCount(queue[k]);
        done := done + pkts;
      }
      assert queue[|queue|..] == [];
      assert Cut(wire, budget) == wire == done;
      dead := false;
    }

    /** One received datagram. A probe, and nothing else, is answered, with a pong to the address it
        came from. Probes, pongs and chunks that complete a frame are signs of life: they, and nothing
        else, refresh the live entry and move the peer address to where they came from. */
    method OnDatagram(pkt: bytes, src: Addr) returns (touched: bool, frame: Option<bytes>)
      requires Valid()
      modifies this`pending, this`peerAddr, this`sent
      ensures Valid()
      ensures var r := React(old(pending), pkt);
              pending == r.pending && touched == r.touched && frame == r.frame &&
              sent == old(sent) + (if r.reply.Some? then [Datagram(src, r.reply.value)] else [])
      ensures touched <==> pkt == PUNCH_PING || pkt == PUNCH_PONG || frame.Some?
      ensures peerAddr == if touched then src else old(peerAddr)
      ensures sent == old(sent) + (if pkt == PUNCH_PING then [Datagram(src, PUNCH_PONG)] else [])
      ensures pkt == PUNCH_PING || pkt == PUNCH_PONG ==> frame == None && pending == old(pending)
    {
      touched, frame := false, None;
      if pkt == PUNCH_PING {
        peerAddr := src;
        touched := true;
        sent := sent + [Datagram(src, PUNCH_PONG)];
      } else if pkt == PUNCH_PONG {
        peerAddr := src;
        touched := true;
      } else {
        frame := ReasmFeed(pkt);
        if frame.Some? {
          peerAddr := src;
          touched := true;
        }
      }
    }
  }
}
