/** What a driver's receiver can hand out over a link that loses, repeats and reorders, given the
    wrapping ids under which the sender's frames go out. */
module WireRuns {
  import opened Bytes
  import opened Base
  import opened Chunking
  import opened PunchLinks
  import opened ChunkRuns

  // ---------------------------------------------------------------- what is on the wire

  /** Every chunk of the trace is one of the wire's; other datagrams are arbitrary. */
  predicate OnWire(t: seq<bytes>, wire: seq<bytes>) {
    forall k :: 0 <= k < |t| && DecodeChunk(t[k]).Some? ==> t[k] in wire
  }

  lemma {:induction false} WireMember(x: bytes, frames: seq<bytes>, first: u32) returns (j: nat, i: nat)
    requires x in Wire(frames, first)
    ensures j < |frames| && i < ChunkCount(frames[j]) && x == Packets(IdAfter(first, j), frames[j])[i]
    decreases |frames|
  {
    IdAfterStep(first, 0);
    if x in Packets(first, frames[0]) {
      j := 0;
      i :| 0 <= i < ChunkCount(frames[0]) && x == Packets(first, frames[0])[i];
    } else {
      assert x in Wire(frames[1..], NextId(first));
      j, i := WireMember(x, frames[1..], NextId(first));
      LaterId(first, j);
      j := j + 1;
    }
  }

  lemma LaterId(first: u32, j: nat)
    ensures IdAfter(NextId(first), j) == IdAfter(first, j + 1)
  {
  }

  lemma {:induction false} MemberOfWire(frames: seq<bytes>, first: u32, j: nat, i: nat)
    requires j < |frames| && i < ChunkCount(frames[j])
    ensures Packets(IdAfter(first, j), frames[j])[i] in Wire(frames, first)
    decreases j
  {
    var head, rest := Packets(first, frames[0]), Wire(frames[1..], NextId(first));
    IdAfterStep(first, 0);
    if j == 0 {
      assert (head + rest)[i] == head[i];
    } else {
      LaterId(first, j - 1);
      MemberOfWire(frames[1..], NextId(first), j - 1, i);
      assert Wire(frames, first) == head + rest;
    }
  }

  predicate AllFit(frames: seq<bytes>) {
    forall j :: 0 <= j < |frames| ==> Fits(frames[j])
  }

  /** A payload of the size its place in a message asks for: full but for the last, which is empty only
      if it is the only one. */
  predicate Sized(payload: bytes, i: nat, n: nat) {
    |payload| <= CHUNK_PAYLOAD && (i + 1 < n ==> |payload| == CHUNK_PAYLOAD) && (0 < i ==> |payload| > 0)
  }

  lemma PieceSized(data: bytes, i: nat)
    requires i < ChunkCount(data)
    ensures Sized(Piece(data, i), i, ChunkCount(data))
  {
  }

  lemma WireChunk(x: bytes, frames: seq<bytes>, first: u32) returns (c: Chunk)
    requires AllFit(frames) && x in Wire(frames, first)
    ensures DecodeChunk(x) == Some(c) && x == EncodeChunk(c)
    ensures c.index < c.total && Sized(c.payload, c.index, c.total)
  {
    var j, i := WireMember(x, frames, first);
    var id, data := IdAfter(first, j), frames[j];
    FitsIffCountFits(data);
    PacketDecodes(id, data, i);
    PieceSized(data, i);
    c := Chunk(id, ChunkCount(data), i, Piece(data, i));
    assert ChunkAt(id, data, i) == c;
  }

  // ---------------------------------------------------------------- joining sized payloads

  predicate AllSized(parts: seq<Option<bytes>>) {
    forall i :: 0 <= i < |parts| ==> parts[i].Some? && Sized(parts[i].value, i, |parts|)
  }

  /** The `i`-th full slice. */
  function Slot(data: bytes, i: nat): bytes
    requires (i + 1) * CHUNK_PAYLOAD <= |data|
  {
    data[i * CHUNK_PAYLOAD..(i + 1) * CHUNK_PAYLOAD]
  }

  lemma SlotAppend(head: bytes, last: bytes, i: nat)
    requires (i + 1) * CHUNK_PAYLOAD <= |head|
    ensures Slot(head + last, i) == Slot(head, i)
  {
  }

  lemma SlotLast(head: bytes, last: bytes, n: nat)
    requires |head| == n * CHUNK_PAYLOAD && |last| == CHUNK_PAYLOAD
    ensures Slot(head + last, n) == last
  {
  }

  lemma {:induction false} JoinFull(parts: seq<Option<bytes>>, k: nat) returns (head: bytes)
    requires AllSized(parts) && k < |parts|
    ensures Join(parts[..k]) == Some(head) && |head| == k * CHUNK_PAYLOAD
    ensures forall i :: 0 <= i < k ==> Slot(head, i) == parts[i].value
  {
    if k == 0 {
      head := [];
    } else {
      var init := JoinFull(parts, k - 1);
      assert parts[..k][..k - 1] == parts[..k - 1];
      var last := parts[k - 1].value;
      head := init + last;
      forall i | 0 <= i < k
        ensures Slot(head, i) == parts[i].value
      {
        if i < k - 1 {
          SlotAppend(init, last, i);
        } else {
          SlotLast(init, last, i);
        }
      }
    }
  }

  /** Payloads of the right sizes are the slices of what they join to. */
  lemma SplitInvertsJoin(parts: seq<Option<bytes>>) returns (out: bytes)
    requires parts != [] && AllSized(parts)
    ensures Join(parts) == Some(out) && ChunkCount(out) == |parts|
    ensures forall i :: 0 <= i < |parts| ==> parts[i] == Some(Piece(out, i))
  {
    var n := |parts| - 1;
    var head := JoinFull(parts, n);
    var last := parts[n].value;
    out := head + last;
    CountOfLast(out, n, |last|);
    forall i | 0 <= i < |parts|
      ensures Piece(out, i) == parts[i].value
    {
      if i < n {
        PieceOfHead(head, last, n, i);
      } else {
        PieceOfLast(head, last, n);
      }
    }
  }

  lemma PieceOfHead(head: bytes, last: bytes, n: nat, i: nat)
    requires |head| == n * CHUNK_PAYLOAD && i < n && ChunkCount(head + last) == n + 1
    ensures Piece(head + last, i) == Slot(head, i)
  {
  }

  lemma PieceOfLast(head: bytes, last: bytes, n: nat)
    requires |head| == n * CHUNK_PAYLOAD && |last| <= CHUNK_PAYLOAD && ChunkCount(head + last) == n + 1
    ensures Piece(head + last, n) == last
  {
  }

  lemma CountOfLast(out: bytes, n: nat, last: nat)
    requires |out| == n * CHUNK_PAYLOAD + last && last <= CHUNK_PAYLOAD && (0 < n ==> last > 0)
    ensures ChunkCount(out) == n + 1
  {
  }

  // ---------------------------------------------------------------- the table

  /** Every filled slot came from the wire. */
  predicate FromWire(q: Table, wire: seq<bytes>) {
    forall id :: id in q ==> PartsFromWire(id, q[id].total, q[id].parts, wire)
  }

  predicate PartsFromWire(id: u32, total: u16, parts: seq<Option<bytes>>, wire: seq<bytes>) {
    |parts| == total &&
    forall i :: 0 <= i < |parts| && parts[i].Some? ==> EncodeChunk(Chunk(id, total, i, parts[i].value)) in wire
  }

  /** The frame `out` lies on the wire chunk by chunk, all under one id, though perhaps under different
      frames. */
  predicate Composed(out: bytes, id: u32, wire: seq<bytes>) {
    forall i :: 0 <= i < ChunkCount(out) ==> Packets(id, out)[i] in wire
  }

  lemma WirePartSized(id: u32, total: u16, index: u16, payload: bytes, frames: seq<bytes>, first: u32)
    requires AllFit(frames) && index < total && EncodeChunk(Chunk(id, total, index, payload)) in Wire(frames, first)
    ensures Sized(payload, index, total)
  {
    var c := Chunk(id, total, index, payload);
    var d := WireChunk(EncodeChunk(c), frames, first);
    ChunkRoundTrip(c);
  }

  lemma ComposedOfParts(id: u32, total: u16, parts: seq<Option<bytes>>, out: bytes, wire: seq<bytes>)
    requires PartsFromWire(id, total, parts, wire) && ChunkCount(out) == total
    requires forall i :: 0 <= i < |parts| ==> parts[i] == Some(Piece(out, i))
    ensures Composed(out, id, wire)
  {
    forall i | 0 <= i < ChunkCount(out)
      ensures Packets(id, out)[i] in wire
    {
      assert ChunkAt(id, out, i) == Chunk(id, total, i, parts[i].value);
    }
  }

  lemma FullPartsCompose(id: u32, total: u16, parts: seq<Option<bytes>>, frames: seq<bytes>, first: u32)
    requires AllFit(frames) && total > 0 && PartsFromWire(id, total, parts, Wire(frames, first))
    requires forall i :: 0 <= i < |parts| ==> parts[i].Some?
    ensures Join(parts).Some? && Fits(Join(parts).value) && Composed(Join(parts).value, id, Wire(frames, first))
  {
    forall i | 0 <= i < |parts|
      ensures Sized(parts[i].value, i, |parts|)
    {
      WirePartSized(id, total, i, parts[i].value, frames, first);
    }
    var out := SplitInvertsJoin(parts);
    FitsIffCountFits(out);
    ComposedOfParts(id, total, parts, out, Wire(frames, first));
  }

  lemma FillFromWire(e: Partial, c: Chunk, wire: seq<bytes>)
    requires e.total == c.total && c.index < c.total && EncodeChunk(c) in wire
    requires Incomplete(e) && PartsFromWire(c.id, e.total, e.parts, wire)
    ensures PartsFromWire(c.id, e.total, Fill(e, c.index, c.payload).parts, wire)
  {
  }

  lemma FeedFromWire(q: Table, x: bytes, frames: seq<bytes>, first: u32)
    requires Inv(q) && FromWire(q, Wire(frames, first)) && AllFit(frames)
    requires DecodeChunk(x).Some? ==> x in Wire(frames, first)
    ensures FromWire(Feed(q, x).pending, Wire(frames, first))
    ensures Feed(q, x).out.Some? ==>
              DecodeChunk(x).Some? && Fits(Feed(q, x).out.value) &&
              Composed(Feed(q, x).out.value, DecodeChunk(x).value.id, Wire(frames, first))
  {
    if DecodeChunk(x).Some? {
      var wire := Wire(frames, first);
      var c := WireChunk(x, frames, first);
      var p := Shed(q, c.id);
      var e := EntryFor(p, c);
      assert PartsFromWire(c.id, e.total, e.parts, wire);
      if e.total == c.total {
        FillFromWire(e, c, wire);
        var f := Fill(e, c.index, c.payload);
        FilledWhenFull(f.parts);
        if f.received == f.total {
          FullPartsCompose(c.id, f.total, f.parts, frames, first);
        }
      }
    }
  }

  lemma {:induction false} RunFromWire(t: seq<bytes>, frames: seq<bytes>, first: u32)
    requires AllFit(frames) && OnWire(t, Wire(frames, first))
    ensures FromWire(After(map[], t), Wire(frames, first))
    decreases |t|
  {
    if t != [] {
      RunFromWire(t[..|t| - 1], frames, first);
      FeedFromWire(After(map[], t[..|t| - 1]), t[|t| - 1], frames, first);
    }
  }

  // ---------------------------------------------------------------- exactly what can come out

  predicate HandsOut(t: seq<bytes>, k: nat, out: bytes) {
    k < |t| && Out(map[], t, k) == Some(out)
  }

  ghost predicate CanComeOut(out: bytes, wire: seq<bytes>) {
    exists t, k :: OnWire(t, wire) && HandsOut(t, k, out)
  }

  /** Exactly what a receiver can hand out of a wire of fitting frames, whatever is lost, repeated,
      reordered or shed: what lies on the wire chunk by chunk under one id. */
  lemma HandOutsExactly(frames: seq<bytes>, first: u32, out: bytes)
    requires AllFit(frames)
    ensures CanComeOut(out, Wire(frames, first)) <==> Fits(out) && exists id: u32 :: Composed(out, id, Wire(frames, first))
  {
    var wire := Wire(frames, first);
    if Fits(out) && exists id: u32 :: Composed(out, id, wire) {
      var id: u32 :| Composed(out, id, wire);
      InOrder(id, out);
      var pkts := Packets(id, out);
      assert OnWire(pkts, wire) && HandsOut(pkts, |pkts| - 1, out);
    }
    forall t, k | OnWire(t, wire) && HandsOut(t, k, out)
      ensures Fits(out) && exists id: u32 :: Composed(out, id, wire)
    {
      ComesComposed(t, k, frames, first);
    }
  }

  lemma ComesComposed(t: seq<bytes>, k: nat, frames: seq<bytes>, first: u32)
    requires AllFit(frames) && OnWire(t, Wire(frames, first)) && k < |t| && Out(map[], t, k).Some?
    ensures Fits(Out(map[], t, k).value)
    ensures exists id: u32 :: Composed(Out(map[], t, k).value, id, Wire(frames, first))
  {
    RunFromWire(t[..k], frames, first);
    FeedFromWire(After(map[], t[..k]), t[k], frames, first);
  }

  /** As long as no id is used twice, that is one of the frames. */
  lemma ComposedIsFrame(out: bytes, id: u32, frames: seq<bytes>, first: u32)
    requires AllFit(frames) && |frames| <= 0x1_0000_0000 && Fits(out) && Composed(out, id, Wire(frames, first))
    ensures out in frames
  {
    var pkts := Packets(id, out);
    var j, i := WireMember(pkts[0], frames, first);
    PacketDecodes(id, out, 0);
    PacketDecodes(IdAfter(first, j), frames[j], i);
    forall m | 0 <= m < ChunkCount(out)
      ensures Piece(out, m) == Piece(frames[j], m)
    {
      var l, n := WireMember(pkts[m], frames, first);
      PacketDecodes(id, out, m);
      PacketDecodes(IdAfter(first, l), frames[l], n);
      SameIdSameFrame(first, j, l);
    }
    SamePieces(out, frames[j]);
  }

  lemma SameIdSameFrame(first: u32, j: nat, l: nat)
    requires j < 0x1_0000_0000 && l < 0x1_0000_0000 && IdAfter(first, j) == IdAfter(first, l)
    ensures j == l
  {
  }

  lemma SamePieces(a: bytes, b: bytes)
    requires ChunkCount(a) == ChunkCount(b) && forall m :: 0 <= m < ChunkCount(a) ==> Piece(a, m) == Piece(b, m)
    ensures a == b
  {
    var parts := seq(ChunkCount(a), m requires 0 <= m < ChunkCount(a) => Some(Piece(a, m)));
    JoinInvertsSplit(a, parts);
    JoinInvertsSplit(b, parts);
  }

  /** For the first 2^32 frames of a driver, if they fit, nothing but frames comes out. */
  lemma OnlyFramesComeOut(frames: seq<bytes>, first: u32, out: bytes)
    requires AllFit(frames) && |frames| <= 0x1_0000_0000 && CanComeOut(out, Wire(frames, first))
    ensures out in frames
  {
    HandOutsExactly(frames, first, out);
    var id: u32 :| Composed(out, id, Wire(frames, first));
    ComposedIsFrame(out, id, frames, first);
  }

  lemma SharedId(first: u32, j: nat, l: nat)
    requires (j - l) % 0x1_0000_0000 == 0
    ensures IdAfter(first, j) == IdAfter(first, l)
  {
  }

  lemma SameChunk(frames: seq<bytes>, first: u32, j: nat, id: u32, out: bytes, i: nat)
    requires j < |frames| && id == IdAfter(first, j) && i < ChunkCount(out) == ChunkCount(frames[j])
    requires Piece(out, i) == Piece(frames[j], i)
    ensures Packets(id, out)[i] in Wire(frames, first)
  {
    assert ChunkAt(id, out, i) == ChunkAt(id, frames[j], i);
    MemberOfWire(frames, first, j, i);
  }

  /** Beyond that an id comes back, and then two frames of the same number of chunks can be mixed: any
      frame that takes each chunk from either can come out. */
  lemma RepeatedIdsMix(frames: seq<bytes>, first: u32, j: nat, l: nat, out: bytes)
    requires AllFit(frames) && j < |frames| && l < |frames| && (j - l) % 0x1_0000_0000 == 0
    requires Fits(out) && ChunkCount(out) == ChunkCount(frames[j]) == ChunkCount(frames[l])
    requires forall i :: 0 <= i < ChunkCount(out) ==>
               Piece(out, i) == Piece(frames[j], i) || Piece(out, i) == Piece(frames[l], i)
    ensures CanComeOut(out, Wire(frames, first))
  {
    var id := IdAfter(first, j);
    SharedId(first, j, l);
    forall i | 0 <= i < ChunkCount(out)
      ensures Packets(id, out)[i] in Wire(frames, first)
    {
      SameChunk(frames, first, if Piece(out, i) == Piece(frames[j], i) then j else l, id, out, i);
    }
    assert Composed(out, id, Wire(frames, first));
    HandOutsExactly(frames, first, out);
  }
}
