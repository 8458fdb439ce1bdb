/** Application-level chunking over a punched UDP link: the wire format of a chunk, the
    splitting of a frame, and what feeding one datagram does to the table of partial messages.
    Everything here is a value; `PunchLink` updates the same table in place. */
module Chunking {
  import opened Bytes
  import opened Base

  /** "mdck" */
  const CHUNK_MAGIC: bytes := [0x6d, 0x64, 0x63, 0x6b]
  const CHUNK_HDR: nat := 12
  const CHUNK_PAYLOAD: nat := 1024
  const REASM_MAX: nat := 256
  /** The largest frame whose chunk count fits the 16-bit header field. */
  const FRAME_LIMIT: nat := 65535 * CHUNK_PAYLOAD

  // ---------------------------------------------------------------- wire format

  datatype Chunk = Chunk(id: u32, total: u16, index: u16, payload: bytes)

  function EncodeChunk(c: Chunk): bytes {
    CHUNK_MAGIC + EncodeU32(c.id) + EncodeU16(c.total) + EncodeU16(c.index) + c.payload
  }

  /** The header checks at the head of `reasm_feed`. */
  function DecodeChunk(pkt: bytes): Option<Chunk> {
    if |pkt| < CHUNK_HDR || pkt[..4] != CHUNK_MAGIC then None
    else
      var id := DecodeU32(pkt[4], pkt[5], pkt[6], pkt[7]);
      var total := DecodeU16(pkt[8], pkt[9]);
      var index := DecodeU16(pkt[10], pkt[11]);
      if total == 0 || index >= total then None
      else Some(Chunk(id, total, index, pkt[CHUNK_HDR..]))
  }

  /** The receiver recovers exactly the header and payload that were sent, and refuses
      precisely the chunks whose index is not below their count. */
  lemma ChunkRoundTrip(c: Chunk)
    ensures DecodeChunk(EncodeChunk(c)) == if c.index < c.total then Some(c) else None
  {
    var pkt := EncodeChunk(c);
    var id, total, index := EncodeU32(c.id), EncodeU16(c.total), EncodeU16(c.index);
    assert pkt[..4] == CHUNK_MAGIC;
    assert pkt[4] == id[0] && pkt[5] == id[1] && pkt[6] == id[2] && pkt[7] == id[3];
    assert pkt[8] == total[0] && pkt[9] == total[1] && pkt[10] == index[0] && pkt[11] == index[1];
    assert pkt[CHUNK_HDR..] == c.payload;
    U32RoundTrip(c.id);
    U16RoundTrip(c.total);
    U16RoundTrip(c.index);
  }

  lemma U16Back(hi: byte, lo: byte)
    ensures EncodeU16(DecodeU16(hi, lo)) == [hi, lo]
  {
  }

  lemma U32Back(a: byte, b: byte, c: byte, d: byte)
    ensures EncodeU32(DecodeU32(a, b, c, d)) == [a, b, c, d]
  {
    U16Back(a, b);
    U16Back(c, d);
    assert [a, b] + [c, d] == [a, b, c, d];
  }

  /** Exactly which datagrams are chunks: the encodings of chunks whose index is below their count, and
      no others. */
  lemma DecodeExactly(pkt: bytes, c: Chunk)
    ensures DecodeChunk(pkt) == Some(c) <==> pkt == EncodeChunk(c) && c.index < c.total
  {
    ChunkRoundTrip(c);
    if DecodeChunk(pkt) == Some(c) {
      U32Back(pkt[4], pkt[5], pkt[6], pkt[7]);
      U16Back(pkt[8], pkt[9]);
      U16Back(pkt[10], pkt[11]);
      assert pkt == pkt[..4] + [pkt[4], pkt[5], pkt[6], pkt[7]] + [pkt[8], pkt[9]] + [pkt[10], pkt[11]] + pkt[12..];
    }
  }

  /** The layout of a chunk, byte by byte: "mdck", the id, the count and the index in network byte order,
      and then the payload. */
  lemma ChunkLayout(c: Chunk)
    ensures var pkt := EncodeChunk(c);
            |pkt| == 12 + |c.payload| && pkt[..4] == [0x6d, 0x64, 0x63, 0x6b] && pkt[12..] == c.payload &&
            BigEndian(pkt[4..8]) == c.id && BigEndian(pkt[8..10]) == c.total && BigEndian(pkt[10..12]) == c.index
  {
    var pkt, id, total, index := EncodeChunk(c), EncodeU32(c.id), EncodeU16(c.total), EncodeU16(c.index);
    assert pkt[4..8] == id && pkt[8..10] == total && pkt[10..12] == index;
    EncodedBigEndian16(c.total);
    EncodedBigEndian16(c.index);
    EncodedBigEndian32(c.id);
  }

  // ---------------------------------------------------------------- splitting

  /** How many chunks `data` is cut into; an empty frame still takes one. */
  function ChunkCount(data: bytes): (n: nat)
    ensures n > 0
  {
    if data == [] then 1 else (|data| + CHUNK_PAYLOAD - 1) / CHUNK_PAYLOAD
  }

  function Min(a: nat, b: nat): nat {
    if a < b then a else b
  }

  /** The `i`-th slice of `data.chunks(CHUNK_PAYLOAD)`. */
  function Piece(data: bytes, i: nat): (p: bytes)
    requires i < ChunkCount(data)
    ensures |p| <= CHUNK_PAYLOAD
  {
    data[i * CHUNK_PAYLOAD .. Min(|data|, (i + 1) * CHUNK_PAYLOAD)]
  }

  /** The `i`-th chunk of a message; both header fields are truncated to 16 bits (`as u16`). */
  function ChunkAt(id: u32, data: bytes, i: nat): Chunk
    requires i < ChunkCount(data)
  {
    Chunk(id, ChunkCount(data) % 0x1_0000, i % 0x1_0000, Piece(data, i))
  }

  /** All the datagrams one frame is sent as, in order. */
  function Packets(id: u32, data: bytes): (pkts: seq<bytes>)
    ensures |pkts| == ChunkCount(data)
  {
    seq(ChunkCount(data), i requires 0 <= i < ChunkCount(data) => EncodeChunk(ChunkAt(id, data, i)))
  }

  predicate Fits(data: bytes) {
    |data| <= FRAME_LIMIT
  }

  lemma FitsIffCountFits(data: bytes)
    ensures Fits(data) <==> ChunkCount(data) <= 65535
    ensures Fits(data) <==> |data| <= 67_107_840
  {
  }

  // ---------------------------------------------------------------- reassembly

  /** One message being collected (`struct Reasm`). */
  datatype Partial = Partial(total: u16, received: u16, parts: seq<Option<bytes>>)

  type Table = map<u32, Partial>

  /** Number of slots already filled. */
  function Filled(parts: seq<Option<bytes>>): (n: nat)
    ensures n <= |parts|
  {
    if parts == [] then 0
    else Filled(parts[..|parts| - 1]) + (if parts[|parts| - 1].Some? then 1 else 0)
  }

  lemma {:induction false} FilledUpdate(parts: seq<Option<bytes>>, i: nat, v: bytes)
    requires i < |parts| && parts[i].None?
    ensures Filled(parts[i := Some(v)]) == Filled(parts) + 1
  {
    var n := |parts| - 1;
    if i == n {
      assert parts[i := Some(v)][..n] == parts[..n];
    } else {
      assert parts[i := Some(v)][..n] == parts[..n][i := Some(v)];
      FilledUpdate(parts[..n], i, v);
    }
  }

  lemma {:induction false} FilledWhenFull(parts: seq<Option<bytes>>)
    ensures Filled(parts) == |parts| <==> forall i :: 0 <= i < |parts| ==> parts[i].Some?
  {
    if parts != [] {
      var init := parts[..|parts| - 1];
      FilledWhenFull(init);
      assert forall i :: 0 <= i < |init| ==> init[i] == parts[i];
    }
  }

  lemma {:induction false} FilledWhenEmpty(parts: seq<Option<bytes>>)
    ensures Filled(parts) == 0 <==> forall i :: 0 <= i < |parts| ==> parts[i].None?
  {
    if parts != [] {
      var init := parts[..|parts| - 1];
      FilledWhenEmpty(init);
      assert forall i :: 0 <= i < |init| ==> init[i] == parts[i];
    }
  }

  /** Concatenation of the slots, giving up at the first empty one (`p?`). */
  function Join(parts: seq<Option<bytes>>): Option<bytes> {
    if parts == [] then Some([])
    else
      var head := Join(parts[..|parts| - 1]);
      var last := parts[|parts| - 1];
      if head.None? || last.None? then None else Some(head.value + last.value)
  }

  lemma {:induction false} JoinWhenFull(parts: seq<Option<bytes>>)
    ensures Join(parts).Some? <==> forall i :: 0 <= i < |parts| ==> parts[i].Some?
  {
    if parts != [] {
      var init := parts[..|parts| - 1];
      JoinWhenFull(init);
      assert forall i :: 0 <= i < |init| ==> init[i] == parts[i];
    }
  }

  /** An entry while it is in the table: one slot a chunk, the counter counts the filled slots,
      and at least one is still missing. */
  predicate Incomplete(e: Partial) {
    |e.parts| == e.total && e.received == Filled(e.parts) && e.received < e.total
  }

  /** What the table satisfies between calls. */
  predicate Inv(p: Table) {
    |p| <= REASM_MAX && forall id :: id in p ==> Incomplete(p[id]) && 1 <= p[id].received
  }

  /** Drops every partial message when a new id arrives at a full table. */
  function Shed(p: Table, id: u32): Table {
    if |p| >= REASM_MAX && id !in p then map[] else p
  }

  predicate Sheds(p: Table, id: u32) {
    |p| >= REASM_MAX && id !in p
  }

  function NoParts(n: nat): (parts: seq<Option<bytes>>)
    ensures |parts| == n && forall i :: 0 <= i < n ==> parts[i] == None
  {
    seq(n, _ => None)
  }

  /** The entry a chunk is put in: the one in the table or a new empty one. */
  function EntryFor(p: Table, c: Chunk): (e: Partial)
    requires Inv(p) && c.index < c.total
    ensures Incomplete(e)
  {
    if c.id in p then p[c.id]
    else
      FilledWhenEmpty(NoParts(c.total));
      Partial(c.total, 0, NoParts(c.total))
  }

  /** First write wins: a slot that is already filled is left alone. */
  function Fill(e: Partial, index: u16, payload: bytes): (f: Partial)
    requires Incomplete(e) && index < e.total
    ensures |f.parts| == f.total == e.total && f.received == Filled(f.parts)
    ensures 1 <= f.received <= f.total
  {
    if e.parts[index].None? then
      FilledUpdate(e.parts, index, payload);
      Partial(e.total, e.received + 1, e.parts[index := Some(payload)])
    else
      FilledWhenEmpty(e.parts);
      e
  }

  datatype FeedResult = FeedResult(pending: Table, out: Option<bytes>)

  /** Takes the message out of the table if its last slot is filled. */
  function Settle(q: Table, id: u32): FeedResult
    requires id in q
  {
    if q[id].received == q[id].total then FeedResult(q - {id}, Join(q[id].parts))
    else FeedResult(q, None)
  }

  /** The part of `reasm_feed` after the header checks. */
  function FeedChunk(p: Table, c: Chunk): FeedResult
    requires Inv(p) && c.index < c.total
  {
    var q := Shed(p, c.id);
    var e := EntryFor(q, c);
    if e.total != c.total then FeedResult(q, None)
    else Settle(q[c.id := Fill(e, c.index, c.payload)], c.id)
  }

  /** `reasm_feed`. */
  function Feed(p: Table, pkt: bytes): (r: FeedResult)
    requires Inv(p)
  {
    match DecodeChunk(pkt)
    case None => FeedResult(p, None)
    case Some(c) => FeedChunk(p, c)
  }

  lemma ChunkKeepsInv(p: Table, c: Chunk)
    requires Inv(p) && c.index < c.total
    ensures Inv(FeedChunk(p, c).pending)
  {
    var q := Shed(p, c.id);
    var e := EntryFor(q, c);
    if e.total == c.total {
      var f := Fill(e, c.index, c.payload);
      if f.received == f.total {
        var rest := q[c.id := f] - {c.id};
        assert rest.Keys == q.Keys - {c.id};
        assert |rest| == |q.Keys - {c.id}| <= |q.Keys|;
      }
    }
  }

  /** The representation invariant survives any datagram whatever, and neither `?` of the
      completion branch can fire: a feed yields a message exactly when it fills the last slot. */
  lemma FeedKeepsInv(p: Table, pkt: bytes)
    requires Inv(p)
    ensures Inv(Feed(p, pkt).pending)
    ensures Feed(p, pkt).out.Some? <==>
              DecodeChunk(pkt).Some? &&
              var c := DecodeChunk(pkt).value;
              var e := EntryFor(Shed(p, c.id), c);
              e.total == c.total && e.parts[c.index].None? && e.received + 1 == e.total
  {
    if DecodeChunk(pkt).Some? {
      var c := DecodeChunk(pkt).value;
      ChunkKeepsInv(p, c);
      var e := EntryFor(Shed(p, c.id), c);
      if e.total == c.total {
        var f := Fill(e, c.index, c.payload);
        FilledWhenFull(f.parts);
        JoinWhenFull(f.parts);
      }
    }
  }

  /** A feed leaves every other message alone unless it sheds the table. */
  lemma FeedFrame(p: Table, c: Chunk, id: u32)
    requires Inv(p) && c.index < c.total && id != c.id && !Sheds(p, c.id)
    ensures var q := FeedChunk(p, c).pending;
            (id in q <==> id in p) && (id in p ==> q[id] == p[id])
  {
  }

  /** Exactly which other messages a feed drops: all of them if a new id meets 256 pending ones, and none
      otherwise. */
  lemma ShedExactly(p: Table, c: Chunk, id: u32)
    requires Inv(p) && c.index < c.total && id != c.id
    ensures var q := FeedChunk(p, c).pending;
            (id in q <==> id in p && !(|p| == 256 && c.id !in p)) && (id in q ==> q[id] == p[id])
  {
  }

  /** What a feed does to its own message when the table has it: a chunk that disagrees about the count,
      or whose slot is taken, changes nothing; another fills its slot and no other, and the one that
      fills the last hands out all slots in order and takes the message out. */
  lemma FeedKnown(p: Table, c: Chunk)
    requires Inv(p) && c.index < c.total && c.id in p
    ensures var r, e := FeedChunk(p, c), p[c.id];
            if e.total != c.total || e.parts[c.index].Some? then r == FeedResult(p, None)
            else
              var parts := e.parts[c.index := Some(c.payload)];
              if exists i :: 0 <= i < |parts| && parts[i].None? then
                r.out == None && c.id in r.pending &&
                r.pending[c.id].parts == parts && r.pending[c.id].total == e.total
              else r.out == Join(parts) && r.out.Some? && c.id !in r.pending
  {
    var e := p[c.id];
    if e.total == c.total {
      var f := Fill(e, c.index, c.payload);
      FilledWhenFull(f.parts);
      JoinWhenFull(f.parts);
      assert p[c.id := e] == p;
    }
  }

  /** ... and when it does not: the only chunk of a message is handed out at once; otherwise an entry
      appears that holds this chunk alone. */
  lemma FeedNew(p: Table, c: Chunk)
    requires Inv(p) && c.index < c.total && c.id !in p
    ensures var r := FeedChunk(p, c);
            if c.total == 1 then r.out == Some(c.payload) && c.id !in r.pending
            else
              r.out == None && c.id in r.pending && r.pending[c.id].total == c.total == |r.pending[c.id].parts| &&
              forall i :: 0 <= i < c.total ==> r.pending[c.id].parts[i] == if i == c.index then Some(c.payload) else None
  {
    FilledWhenEmpty(NoParts(c.total));
    var e := Partial(c.total, 0, NoParts(c.total));
    var f := Fill(e, c.index, c.payload);
    if c.total == 1 {
      assert f.parts == [Some(c.payload)];
      assert f.parts[..0] == [] && Join(f.parts[..0]) == Some([]);
      assert [] + c.payload == c.payload;
    }
  }
}
