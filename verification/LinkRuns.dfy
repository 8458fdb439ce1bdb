/** A punched link end to end: frames flushed by one driver, received by the other. */
module LinkRuns {
  import opened Bytes
  import opened Base
  import opened Chunking
  import opened PunchLinks
  import opened ChunkRuns

  /** The receiving driver's table after the datagrams of `t`. */
  function LinkAfter(p: Table, t: seq<bytes>): (q: Table)
    requires Inv(p)
    ensures q == After(p, t)
    decreases |t|
  {
    if t == [] then p
    else
      var q := LinkAfter(p, t[..|t| - 1]);
      ReactIsFeed(q, t[|t| - 1]);
      React(q, t[|t| - 1]).pending
  }

  /** The frames the receiving driver dispatches, in order. */
  function Dispatched(p: Table, t: seq<bytes>): seq<bytes>
    requires Inv(p)
    decreases |t|
  {
    if t == [] then []
    else
      var r := React(LinkAfter(p, t[..|t| - 1]), t[|t| - 1]);
      Dispatched(p, t[..|t| - 1]) + (if r.frame.Some? then [r.frame.value] else [])
  }

  /** Probes and pongs are never chunks, so intercepting them does not change what the
      reassembler sees. */
  lemma ReactIsFeed(p: Table, pkt: bytes)
    requires Inv(p)
    ensures React(p, pkt).pending == Feed(p, pkt).pending
    ensures React(p, pkt).frame == Feed(p, pkt).out
  {
  }

  lemma {:induction false} DispatchedAppend(p: Table, a: seq<bytes>, b: seq<bytes>)
    requires Inv(p)
    ensures Dispatched(p, a + b) == Dispatched(p, a) + Dispatched(LinkAfter(p, a), b)
    decreases |b|
  {
    if b == [] {
      assert a + b == a;
    } else {
      var init, x := b[..|b| - 1], b[|b| - 1];
      assert (a + b)[..|a + b| - 1] == a + init;
      DispatchedAppend(p, a, init);
      AfterAppend(p, a, init);
    }
  }

  predicate Keepalive(pkt: bytes) {
    pkt == PUNCH_PING || pkt == PUNCH_PONG
  }

  /** The trace without its keepalives. */
  function Strip(t: seq<bytes>): seq<bytes> {
    if t == [] then []
    else Strip(t[..|t| - 1]) + (if Keepalive(t[|t| - 1]) then [] else [t[|t| - 1]])
  }

  lemma {:induction false} StripIsInvisible(p: Table, t: seq<bytes>)
    requires Inv(p)
    ensures LinkAfter(p, Strip(t)) == LinkAfter(p, t)
    ensures Dispatched(p, Strip(t)) == Dispatched(p, t)
    decreases |t|
  {
    if t != [] {
      var init, x := t[..|t| - 1], t[|t| - 1];
      StripIsInvisible(p, init);
      if Keepalive(x) {
        assert Strip(t) == Strip(init);
        ReactIsFeed(LinkAfter(p, init), x);
      } else {
        assert Strip(t) == Strip(init) + [x];
        assert Strip(t)[..|Strip(t)| - 1] == Strip(init);
      }
    }
  }

  /** One frame sent in order over an empty table is dispatched once and leaves it empty. */
  lemma FrameInOrder(id: u32, data: bytes)
    requires Fits(data)
    ensures Dispatched(map[], Packets(id, data)) == [data]
    ensures LinkAfter(map[], Packets(id, data)) == map[]
  {
    var pkts := Packets(id, data);
    InOrder(id, data);
    QuietPrefix(id, data, |pkts| - 1);
    ReactIsFeed(After(map[], pkts[..|pkts| - 1]), pkts[|pkts| - 1]);
    assert Out(map[], pkts, |pkts| - 1) == Some(data);
  }

  lemma {:induction false} QuietPrefix(id: u32, data: bytes, k: nat)
    requires Fits(data) && k < ChunkCount(data)
    ensures Dispatched(map[], Packets(id, data)[..k]) == []
  {
    if k > 0 {
      var pkts := Packets(id, data);
      QuietPrefix(id, data, k - 1);
      InOrder(id, data);
      assert pkts[..k][..k - 1] == pkts[..k - 1];
      ReactIsFeed(After(map[], pkts[..k - 1]), pkts[k - 1]);
      assert Out(map[], pkts, k - 1) == None;
    }
  }

  lemma {:induction false} WireInOrder(frames: seq<bytes>, firstId: u32)
    requires forall j :: 0 <= j < |frames| ==> Fits(frames[j])
    ensures Dispatched(map[], Wire(frames, firstId)) == frames
    ensures LinkAfter(map[], Wire(frames, firstId)) == map[]
    decreases |frames|
  {
    if frames != [] {
      var head, rest := Packets(firstId, frames[0]), Wire(frames[1..], NextId(firstId));
      FrameInOrder(firstId, frames[0]);
      WireInOrder(frames[1..], NextId(firstId));
      DispatchedAppend(map[], head, rest);
      AfterAppend(map[], head, rest);
      assert frames == [frames[0]] + frames[1..];
    }
  }

  // ---------------------------------------------------------------- sizes

  /** No slot holds more than one chunk's worth of bytes. */
  predicate SmallSlots(q: Table) {
    forall id :: id in q ==>
      forall i :: 0 <= i < |q[id].parts| && q[id].parts[i].Some? ==> |q[id].parts[i].value| <= CHUNK_PAYLOAD
  }

  lemma {:induction false} JoinIsSmall(parts: seq<Option<bytes>>)
    requires forall i :: 0 <= i < |parts| && parts[i].Some? ==> |parts[i].value| <= CHUNK_PAYLOAD
    ensures Join(parts).Some? ==> |Join(parts).value| <= |parts| * CHUNK_PAYLOAD
  {
    if parts != [] {
      JoinIsSmall(parts[..|parts| - 1]);
    }
  }

  lemma SmallStep(q: Table, c: Chunk)
    requires Inv(q) && SmallSlots(q) && c.index < c.total && |c.payload| <= CHUNK_PAYLOAD
    ensures SmallSlots(FeedChunk(q, c).pending)
    ensures FeedChunk(q, c).out.Some? ==> Fits(FeedChunk(q, c).out.value)
  {
    var p := Shed(q, c.id);
    var e := EntryFor(p, c);
    if e.total == c.total {
      var f := Fill(e, c.index, c.payload);
      assert forall i :: 0 <= i < |f.parts| && f.parts[i].Some? ==> |f.parts[i].value| <= CHUNK_PAYLOAD;
      JoinIsSmall(f.parts);
    }
  }

  predicate SmallPayloads(t: seq<bytes>) {
    forall k :: 0 <= k < |t| && DecodeChunk(t[k]).Some? ==> |DecodeChunk(t[k]).value.payload| <= CHUNK_PAYLOAD
  }

  lemma {:induction false} SmallRun(t: seq<bytes>)
    requires SmallPayloads(t)
    ensures SmallSlots(LinkAfter(map[], t))
    ensures forall j :: 0 <= j < |Dispatched(map[], t)| ==> Fits(Dispatched(map[], t)[j])
    decreases |t|
  {
    if t != [] {
      var init, x := t[..|t| - 1], t[|t| - 1];
      SmallRun(init);
      ReactIsFeed(LinkAfter(map[], init), x);
      if DecodeChunk(x).Some? {
        SmallStep(LinkAfter(map[], init), DecodeChunk(x).value);
      }
    }
  }

  lemma {:induction false} WireIsSmall(frames: seq<bytes>, firstId: u32)
    ensures SmallPayloads(Wire(frames, firstId))
    decreases |frames|
  {
    if frames != [] {
      WireIsSmall(frames[1..], NextId(firstId));
      forall i | 0 <= i < ChunkCount(frames[0])
        ensures DecodeChunk(Packets(firstId, frames[0])[i]).Some? ==>
                  |DecodeChunk(Packets(firstId, frames[0])[i]).value.payload| <= CHUNK_PAYLOAD
      {
        ChunkRoundTrip(ChunkAt(firstId, frames[0], i));
      }
    }
  }

  // ---------------------------------------------------------------- the link theorem

  /** A lossless first-in first-out link is the identity on frames exactly when every frame is
      within the limit: for any queue, however long (ids wrap), and keepalives interleaved
      anywhere, the receiver dispatches the queued frames in order if and only if all of them fit;
      and then its table is empty again when they have all arrived. (The statement covers every
      prefix of a longer exchange that ends with a frame.) */
  lemma FifoLinkIsIdentity(frames: seq<bytes>, firstId: u32, t: seq<bytes>)
    requires Strip(t) == Wire(frames, firstId)
    ensures Dispatched(map[], t) == frames <==> forall j :: 0 <= j < |frames| ==> Fits(frames[j])
    ensures (forall j :: 0 <= j < |frames| ==> Fits(frames[j])) ==> LinkAfter(map[], t) == map[]
  {
    StripIsInvisible(map[], t);
    if forall j :: 0 <= j < |frames| ==> Fits(frames[j]) {
      WireInOrder(frames, firstId);
    } else {
      WireIsSmall(frames, firstId);
      SmallRun(Strip(t));
    }
  }
}
