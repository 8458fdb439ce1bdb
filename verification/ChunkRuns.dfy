/** Whole runs of the reassembler: what a receiver hands out for every loss, reordering,
    duplication and interleaving of the datagrams of many messages. */
module ChunkRuns {
  import opened Bytes
  import opened Base
  import opened Chunking

  // ---------------------------------------------------------------- runs

  /** The table after receiving the datagrams of `t` in order. */
  function After(p: Table, t: seq<bytes>): (q: Table)
    requires Inv(p)
    ensures Inv(q)
    decreases |t|
  {
    if t == [] then p
    else
      var q := After(p, t[..|t| - 1]);
      FeedKeepsInv(q, t[|t| - 1]);
      Feed(q, t[|t| - 1]).pending
  }

  /** What the `k`-th datagram of `t` makes the reassembler hand out. */
  function Out(p: Table, t: seq<bytes>, k: nat): Option<bytes>
    requires Inv(p) && k < |t|
  {
    Feed(After(p, t[..k]), t[k]).out
  }

  lemma AfterStep(p: Table, t: seq<bytes>, x: bytes)
    requires Inv(p)
    ensures After(p, t + [x]) == Feed(After(p, t), x).pending
  {
    assert (t + [x])[..|t|] == t;
  }

  lemma {:induction false} AfterAppend(p: Table, a: seq<bytes>, b: seq<bytes>)
    requires Inv(p)
    ensures After(p, a + b) == After(After(p, a), b)
    decreases |b|
  {
    if b == [] {
      assert a + b == a;
    } else {
      assert (a + b)[..|a + b| - 1] == a + b[..|b| - 1];
      AfterAppend(p, a, b[..|b| - 1]);
    }
  }

  /** The datagram is a chunk the receiver accepts, and it belongs to message `id`. */
  predicate Carries(pkt: bytes, id: u32) {
    DecodeChunk(pkt).Some? && DecodeChunk(pkt).value.id == id
  }

  predicate OnlyChunksOf(t: seq<bytes>, id: u32, data: bytes) {
    forall k :: 0 <= k < |t| && Carries(t[k], id) ==> t[k] in Packets(id, data)
  }

  /** No datagram of `t` makes the receiver drop its table. */
  predicate NoShed(p: Table, t: seq<bytes>)
    requires Inv(p)
  {
    forall k :: 0 <= k < |t| && DecodeChunk(t[k]).Some? ==> !Sheds(After(p, t[..k]), DecodeChunk(t[k]).value.id)
  }

  predicate AllArrived(t: seq<bytes>, id: u32, data: bytes) {
    forall i :: 0 <= i < ChunkCount(data) ==> Packets(id, data)[i] in t
  }

  lemma PacketDecodes(id: u32, data: bytes, i: nat)
    requires Fits(data) && i < ChunkCount(data)
    ensures DecodeChunk(Packets(id, data)[i]) == Some(Chunk(id, ChunkCount(data), i, Piece(data, i)))
  {
    var c := ChunkAt(id, data, i);
    assert c == Chunk(id, ChunkCount(data), i, Piece(data, i)) by {
      FitsIffCountFits(data);
    }
    ChunkRoundTrip(c);
  }

  lemma PacketsDistinct(id: u32, data: bytes, i: nat, j: nat)
    requires Fits(data) && i < ChunkCount(data) && j < ChunkCount(data)
    ensures Packets(id, data)[i] == Packets(id, data)[j] ==> i == j
  {
    PacketDecodes(id, data, i);
    PacketDecodes(id, data, j);
  }

  // ---------------------------------------------------------------- splitting and joining

  lemma {:induction false} JoinPieces(data: bytes, parts: seq<Option<bytes>>, k: nat)
    requires |parts| == ChunkCount(data) && k <= |parts|
    requires forall i :: 0 <= i < |parts| ==> parts[i] == Some(Piece(data, i))
    ensures Join(parts[..k]) == Some(data[..Min(|data|, k * CHUNK_PAYLOAD)])
  {
    if k > 0 {
      JoinPieces(data, parts, k - 1);
      assert parts[..k][..k - 1] == parts[..k - 1];
      assert data[..Min(|data|, k * CHUNK_PAYLOAD)] == data[..Min(|data|, (k - 1) * CHUNK_PAYLOAD)] + Piece(data, k - 1);
    }
  }

  /** Concatenating all the slices of a frame gives the frame back. */
  lemma JoinInvertsSplit(data: bytes, parts: seq<Option<bytes>>)
    requires |parts| == ChunkCount(data)
    requires forall i :: 0 <= i < |parts| ==> parts[i] == Some(Piece(data, i))
    ensures Join(parts) == Some(data)
  {
    JoinPieces(data, parts, |parts|);
    assert parts[..|parts|] == parts;
    assert data[..|data|] == data;
  }

  // ---------------------------------------------------------------- any order, any duplicates

  /** The table holds of message `id` exactly the chunks that have arrived. */
  predicate Collecting(q: Table, t: seq<bytes>, id: u32, data: bytes) {
    if id in q then
      q[id].total == ChunkCount(data) && SlotsOf(q[id].parts, t, id, data)
    else
      forall i :: 0 <= i < ChunkCount(data) ==> Packets(id, data)[i] !in t
  }

  lemma CollectForeign(q: Table, t: seq<bytes>, x: bytes, id: u32, data: bytes)
    requires Inv(q) && Fits(data) && Collecting(q, t, id, data) && !Carries(x, id)
    requires DecodeChunk(x).Some? ==> !Sheds(q, DecodeChunk(x).value.id)
    ensures Collecting(Feed(q, x).pending, t + [x], id, data)
  {
    forall i | 0 <= i < ChunkCount(data)
      ensures Packets(id, data)[i] in t + [x] <==> Packets(id, data)[i] in t
    {
      PacketDecodes(id, data, i);
    }
    if DecodeChunk(x).Some? {
      FeedFrame(q, DecodeChunk(x).value, id);
    }
  }

  /** The slots that hold exactly the chunks in `t`. */
  predicate SlotsOf(parts: seq<Option<bytes>>, t: seq<bytes>, id: u32, data: bytes) {
    |parts| == ChunkCount(data) &&
    forall i :: 0 <= i < |parts| ==>
      parts[i] == if Packets(id, data)[i] in t then Some(Piece(data, i)) else None
  }

  lemma SlotsOfFilled(e: Partial, t: seq<bytes>, j: nat, id: u32, data: bytes)
    requires Fits(data) && Incomplete(e) && SlotsOf(e.parts, t, id, data) && j < ChunkCount(data)
    ensures SlotsOf(Fill(e, j, Piece(data, j)).parts, t + [Packets(id, data)[j]], id, data)
  {
    forall i | 0 <= i < ChunkCount(data) && i != j
      ensures Packets(id, data)[i] != Packets(id, data)[j]
    {
      PacketsDistinct(id, data, i, j);
    }
  }

  lemma SlotsOfFull(parts: seq<Option<bytes>>, t: seq<bytes>, id: u32, data: bytes)
    requires SlotsOf(parts, t, id, data)
    ensures Filled(parts) == |parts| <==> AllArrived(t, id, data)
    ensures AllArrived(t, id, data) ==> Join(parts) == Some(data)
  {
    FilledWhenFull(parts);
    if AllArrived(t, id, data) {
      JoinInvertsSplit(data, parts);
    }
  }

  lemma CollectOwn(q: Table, t: seq<bytes>, j: nat, id: u32, data: bytes)
    requires Inv(q) && Fits(data) && Collecting(q, t, id, data) && j < ChunkCount(data)
    requires !Sheds(q, id)
    ensures var x := Packets(id, data)[j];
            var r := Feed(q, x);
            if AllArrived(t + [x], id, data) then r.out == Some(data) && id !in r.pending
            else r.out == None && Collecting(r.pending, t + [x], id, data)
  {
    var x := Packets(id, data)[j];
    PacketDecodes(id, data, j);
    var c := Chunk(id, ChunkCount(data), j, Piece(data, j));
    var e := EntryFor(q, c);
    assert SlotsOf(e.parts, t, id, data);
    SlotsOfFilled(e, t, j, id, data);
    SlotsOfFull(Fill(e, j, Piece(data, j)).parts, t + [x], id, data);
  }

  lemma {:induction false} Collects(p: Table, t: seq<bytes>, id: u32, data: bytes)
    requires Inv(p) && id !in p && Fits(data)
    requires OnlyChunksOf(t, id, data) && NoShed(p, t) && !AllArrived(t, id, data)
    ensures Collecting(After(p, t), t, id, data)
    decreases |t|
  {
    if t != [] {
      var init, x := t[..|t| - 1], t[|t| - 1];
      assert t == init + [x];
      NoShedPrefix(p, t, |t| - 1);
      Collects(p, init, id, data);
      var q := After(p, init);
      if Carries(x, id) {
        var j :| 0 <= j < ChunkCount(data) && Packets(id, data)[j] == x;
        CollectOwn(q, init, j, id, data);
      } else {
        CollectForeign(q, init, x, id, data);
      }
    }
  }

  lemma NoShedPrefix(p: Table, t: seq<bytes>, n: nat)
    requires Inv(p) && n <= |t| && NoShed(p, t)
    ensures NoShed(p, t[..n])
  {
    forall k | 0 <= k < n
      ensures t[..n][..k] == t[..k]
    {
    }
  }

  lemma PrefixStep(t: seq<bytes>, k: nat)
    requires k < |t|
    ensures t[..k + 1] == t[..k] + [t[k]]
  {
  }

  /** Any-order round trip. Whatever else arrives and however the chunks of one message are
      reordered and repeated, as long as nothing is shed: up to the moment the last missing chunk
      arrives, a chunk of the message hands out a message exactly when it is that last chunk, what
      is handed out is the frame that was sent, and no trace of it stays in the table. */
  lemma AnyOrderRoundTrip(p: Table, t: seq<bytes>, id: u32, data: bytes, k: nat)
    requires Inv(p) && id !in p && Fits(data)
    requires OnlyChunksOf(t, id, data) && NoShed(p, t)
    requires k < |t| && Carries(t[k], id) && !AllArrived(t[..k], id, data)
    ensures Out(p, t, k) == if AllArrived(t[..k + 1], id, data) then Some(data) else None
    ensures AllArrived(t[..k + 1], id, data) ==> id !in After(p, t[..k + 1])
  {
    NoShedPrefix(p, t, k);
    Collects(p, t[..k], id, data);
    var j :| 0 <= j < ChunkCount(data) && Packets(id, data)[j] == t[k];
    PacketDecodes(id, data, j);
    var init := t[..k];
    PrefixStep(t, k);
    AfterStep(p, init, t[k]);
    CollectOwn(After(p, init), init, j, id, data);
  }

  // ---------------------------------------------------------------- many messages at once

  /** Every chunk in the trace was cut from the message of `sent` whose id it carries; other
      datagrams are arbitrary. Ids are distinct by construction. */
  predicate FromSent(t: seq<bytes>, sent: map<u32, bytes>) {
    forall k :: 0 <= k < |t| && DecodeChunk(t[k]).Some? ==>
      var id := DecodeChunk(t[k]).value.id;
      id in sent && t[k] in Packets(id, sent[id])
  }

  lemma {:induction false} FirstCompletion(t: seq<bytes>, id: u32, data: bytes) returns (k: nat)
    requires Fits(data) && AllArrived(t, id, data)
    ensures k < |t| && !AllArrived(t[..k], id, data) && AllArrived(t[..k + 1], id, data)
    ensures Carries(t[k], id)
    decreases |t|
  {
    assert Packets(id, data)[0] in t;
    k := |t| - 1;
    assert t[..k + 1] == t == t[..k] + [t[k]];
    if AllArrived(t[..k], id, data) {
      var init := t[..k];
      k := FirstCompletion(init, id, data);
      assert init[..k] == t[..k] && init[..k + 1] == t[..k + 1];
    } else {
      var i :| 0 <= i < ChunkCount(data) && Packets(id, data)[i] !in t[..k];
      assert Packets(id, data)[i] == t[k];
      PacketDecodes(id, data, i);
    }
  }

  /** Completeness under the cap: if a new id never arrives at a full table, every message all of
      whose chunks have arrived has been handed out. */
  lemma CompleteUnderCap(t: seq<bytes>, sent: map<u32, bytes>, id: u32)
    requires FromSent(t, sent) && NoShed(map[], t)
    requires id in sent && Fits(sent[id]) && AllArrived(t, id, sent[id])
    ensures exists k :: 0 <= k < |t| && Carries(t[k], id) && Out(map[], t, k) == Some(sent[id])
  {
    var k := FirstCompletion(t, id, sent[id]);
    AnyOrderRoundTrip(map[], t, id, sent[id], k);
  }

  /** The table holds only slices of sent messages, each in its own place. */
  predicate Clean(q: Table, sent: map<u32, bytes>) {
    forall id :: id in q ==>
      id in sent && q[id].total == ChunkCount(sent[id]) == |q[id].parts| &&
      forall i :: 0 <= i < |q[id].parts| ==> q[id].parts[i].None? || q[id].parts[i] == Some(Piece(sent[id], i))
  }

  /** The frames the 16-bit header fields can describe, plus those none of whose chunks is ever
      accepted because their count is a multiple of 65536 and so announced as zero. */
  predicate Deliverable(data: bytes) {
    Fits(data) || ChunkCount(data) % 0x1_0000 == 0
  }

  lemma ZeroCountNeverDecodes(id: u32, data: bytes, i: nat)
    requires ChunkCount(data) % 0x1_0000 == 0 && i < ChunkCount(data)
    ensures DecodeChunk(Packets(id, data)[i]) == None
  {
    ChunkRoundTrip(ChunkAt(id, data, i));
  }

  /** A chunk of a deliverable message arrives as it was cut. */
  lemma ChunkOfSent(x: bytes, sent: map<u32, bytes>) returns (c: Chunk)
    requires FromSent([x], sent) && DecodeChunk(x).Some?
    requires forall id :: id in sent ==> Deliverable(sent[id])
    ensures c == DecodeChunk(x).value && c.id in sent
    ensures c.total == ChunkCount(sent[c.id]) && c.index < c.total && c.payload == Piece(sent[c.id], c.index)
  {
    c := DecodeChunk(x).value;
    assert [x][0] == x;
    var data := sent[c.id];
    var j :| 0 <= j < ChunkCount(data) && Packets(c.id, data)[j] == x;
    if !Fits(data) {
      ZeroCountNeverDecodes(c.id, data, j);
      assert false;
    }
    PacketDecodes(c.id, data, j);
  }

  lemma CleanFill(q: Table, c: Chunk, sent: map<u32, bytes>)
    requires Inv(q) && Clean(q, sent) && c.id in sent
    requires c.total == ChunkCount(sent[c.id]) && c.index < c.total && c.payload == Piece(sent[c.id], c.index)
    ensures Clean(FeedChunk(q, c).pending, sent)
    ensures FeedChunk(q, c).out.Some? ==> FeedChunk(q, c).out == Some(sent[c.id])
  {
    var p := Shed(q, c.id);
    assert Clean(p, sent);
    var e := EntryFor(p, c);
    assert e.total == c.total;
    var f := Fill(e, c.index, c.payload);
    assert forall i :: 0 <= i < |f.parts| ==> f.parts[i].None? || f.parts[i] == Some(Piece(sent[c.id], i));
    assert Clean(p[c.id := f], sent);
    if f.received == f.total {
      FilledWhenFull(f.parts);
      JoinInvertsSplit(sent[c.id], f.parts);
      assert Clean(p[c.id := f] - {c.id}, sent);
    }
  }

  lemma CleanStep(q: Table, x: bytes, sent: map<u32, bytes>)
    requires Inv(q) && Clean(q, sent) && FromSent([x], sent)
    requires forall id :: id in sent ==> Deliverable(sent[id])
    ensures Clean(Feed(q, x).pending, sent)
    ensures Feed(q, x).out.Some? ==>
              DecodeChunk(x).Some? && var id := DecodeChunk(x).value.id;
              id in sent && Feed(q, x).out == Some(sent[id])
  {
    if DecodeChunk(x).Some? {
      var c := ChunkOfSent(x, sent);
      CleanFill(q, c, sent);
    }
  }

  lemma {:induction false} CleanRun(t: seq<bytes>, sent: map<u32, bytes>)
    requires FromSent(t, sent)
    requires forall id :: id in sent ==> Deliverable(sent[id])
    ensures Clean(After(map[], t), sent)
    decreases |t|
  {
    if t != [] {
      CleanRun(t[..|t| - 1], sent);
      CleanStep(After(map[], t[..|t| - 1]), t[|t| - 1], sent);
    }
  }

  /** Whatever is handed out is the message whose chunk completed it. */
  predicate Faithful(t: seq<bytes>, sent: map<u32, bytes>) {
    forall k :: 0 <= k < |t| && Out(map[], t, k).Some? ==>
      DecodeChunk(t[k]).Some? && var id := DecodeChunk(t[k]).value.id;
      id in sent && Out(map[], t, k) == Some(sent[id])
  }

  /** No mixing: packets of many messages dropped, repeated, reordered and interleaved in any way,
      with the table shed any number of times in between, never produce anything but sent frames. */
  lemma NoMixing(t: seq<bytes>, sent: map<u32, bytes>)
    requires FromSent(t, sent)
    requires forall id :: id in sent ==> Deliverable(sent[id])
    ensures Faithful(t, sent)
  {
    forall k | 0 <= k < |t| && Out(map[], t, k).Some?
      ensures DecodeChunk(t[k]).Some? && var id := DecodeChunk(t[k]).value.id;
              id in sent && Out(map[], t, k) == Some(sent[id])
    {
      CleanRun(t[..k], sent);
      assert [t[k]][0] == t[k];
      CleanStep(After(map[], t[..k]), t[k], sent);
    }
  }

  // ---------------------------------------------------------------- one message in order

  lemma {:induction false} OnlyKey(id: u32, data: bytes, k: nat)
    requires k <= ChunkCount(data)
    ensures After(map[], Packets(id, data)[..k]).Keys <= {id}
  {
    var pkts := Packets(id, data);
    if k > 0 {
      OnlyKey(id, data, k - 1);
      assert pkts[..k][..k - 1] == pkts[..k - 1];
      ChunkRoundTrip(ChunkAt(id, data, k - 1));
    }
  }

  lemma AloneNeverSheds(id: u32, data: bytes)
    ensures NoShed(map[], Packets(id, data))
  {
    var pkts := Packets(id, data);
    forall k | 0 <= k < |pkts|
      ensures |After(map[], pkts[..k])| <= 1
    {
      OnlyKey(id, data, k);
      var q := After(map[], pkts[..k]);
      assert |q| == |q.Keys| <= |{id}|  by {
        assert {id} == q.Keys + ({id} - q.Keys);
      }
    }
  }

  lemma InOrderAt(id: u32, data: bytes, k: nat)
    requires Fits(data) && k < ChunkCount(data)
    ensures var pkts := Packets(id, data);
            Out(map[], pkts, k) == (if k == |pkts| - 1 then Some(data) else None) &&
            (k == |pkts| - 1 ==> id !in After(map[], pkts[..k + 1]))
  {
    var pkts := Packets(id, data);
    AloneNeverSheds(id, data);
    PacketDecodes(id, data, k);
    NotYetArrived(id, data, k, k);
    if k < |pkts| - 1 {
      NotYetArrived(id, data, k + 1, k + 1);
    }
    AnyOrderRoundTrip(map[], pkts, id, data, k);
  }

  lemma NotYetArrived(id: u32, data: bytes, n: nat, j: nat)
    requires Fits(data) && n <= j < ChunkCount(data)
    ensures !AllArrived(Packets(id, data)[..n], id, data)
  {
    var pkts := Packets(id, data);
    forall i | 0 <= i < n
      ensures pkts[..n][i] != pkts[j]
    {
      PacketsDistinct(id, data, i, j);
    }
    assert pkts[j] !in pkts[..n];
  }

  /** Sent in order on its own, a frame within the limit is handed out by its last chunk and by
      no other, and leaves the table empty. */
  lemma InOrder(id: u32, data: bytes)
    requires Fits(data)
    ensures var pkts := Packets(id, data);
            After(map[], pkts) == map[] &&
            forall k :: 0 <= k < |pkts| ==> Out(map[], pkts, k) == if k == |pkts| - 1 then Some(data) else None
  {
    var pkts := Packets(id, data);
    forall k | 0 <= k < |pkts|
      ensures Out(map[], pkts, k) == if k == |pkts| - 1 then Some(data) else None
    {
      InOrderAt(id, data, k);
    }
    InOrderAt(id, data, |pkts| - 1);
    OnlyKey(id, data, |pkts|);
    assert pkts[..|pkts|] == pkts;
    NoKeys(After(map[], pkts), id);
  }

  lemma NoKeys(q: Table, id: u32)
    requires q.Keys <= {id} && id !in q
    ensures q == map[]
  {
    assert q.Keys == {};
  }

  // ---------------------------------------------------------------- frames over the limit

  /** The part of an over-long frame that its truncated chunk count describes. */
  function Truncated(data: bytes): (d: bytes)
    requires !Fits(data)
    ensures |d| == ChunkCount(data) % 0x1_0000 * CHUNK_PAYLOAD < |data|
  {
    data[..ChunkCount(data) % 0x1_0000 * CHUNK_PAYLOAD]
  }

  lemma TruncatedPackets(id: u32, data: bytes)
    requires !Deliverable(data)
    ensures Fits(Truncated(data))
    ensures Packets(id, Truncated(data)) == Packets(id, data)[..ChunkCount(data) % 0x1_0000]
  {
    var m := ChunkCount(data) % 0x1_0000;
    var d := Truncated(data);
    assert ChunkCount(d) == m;
    forall i | 0 <= i < m
      ensures Packets(id, d)[i] == Packets(id, data)[i]
    {
      assert Piece(d, i) == Piece(data, i);
    }
  }

  /** A frame of more than 65535 chunks whose count is not a multiple of 65536 is cut short: its
      first chunks complete a message that is a proper prefix of the frame. */
  lemma OversizeIsTruncated(id: u32, data: bytes)
    requires !Deliverable(data)
    ensures var m := ChunkCount(data) % 0x1_0000;
            0 < m < |Packets(id, data)| &&
            Out(map[], Packets(id, data), m - 1) == Some(Truncated(data)) &&
            Truncated(data) != data
  {
    var m := ChunkCount(data) % 0x1_0000;
    TruncatedPackets(id, data);
    InOrderAt(id, Truncated(data), m - 1);
    OutOfPrefix(Packets(id, data), m, m - 1);
  }

  lemma OutOfPrefix(t: seq<bytes>, m: nat, k: nat)
    requires k < m <= |t|
    ensures Out(map[], t[..m], k) == Out(map[], t, k)
  {
    assert t[..m][..k] == t[..k];
  }

  /** Exactly when mixing is impossible: every trace of a set of messages is faithful if and only
      if each of them fits the header fields or announces no chunks at all. */
  lemma NoMixingExactly(sent: map<u32, bytes>)
    ensures (forall t :: FromSent(t, sent) ==> Faithful(t, sent)) <==> forall id :: id in sent ==> Deliverable(sent[id])
  {
    if forall id :: id in sent ==> Deliverable(sent[id]) {
      forall t | FromSent(t, sent)
        ensures Faithful(t, sent)
      {
        NoMixing(t, sent);
      }
    } else {
      var id :| id in sent && !Deliverable(sent[id]);
      var pkts := Packets(id, sent[id]);
      OversizeIsTruncated(id, sent[id]);
      forall k | 0 <= k < |pkts| && DecodeChunk(pkts[k]).Some?
        ensures DecodeChunk(pkts[k]).value.id == id
      {
        ChunkRoundTrip(ChunkAt(id, sent[id], k));
      }
      assert FromSent(pkts, sent);
      var m := ChunkCount(sent[id]) % 0x1_0000;
      ChunkRoundTrip(ChunkAt(id, sent[id], m - 1));
      assert !Faithful(pkts, sent);
    }
  }

  // ---------------------------------------------------------------- conservation

  /** How many datagrams of `t` are chunk `i` of message `id`. */
  function Arrivals(t: seq<bytes>, id: u32, i: nat): nat {
    if t == [] then 0
    else
      var x := t[|t| - 1];
      Arrivals(t[..|t| - 1], id, i) + (if Carries(x, id) && DecodeChunk(x).value.index == i then 1 else 0)
  }

  /** How many times `t` hands out a message `id` of more than `i` chunks. */
  function Deliveries(t: seq<bytes>, id: u32, i: nat): nat {
    if t == [] then 0
    else
      var x := t[|t| - 1];
      Deliveries(t[..|t| - 1], id, i) +
      (if Carries(x, id) && DecodeChunk(x).value.total > i && Out(map[], t, |t| - 1).Some? then 1 else 0)
  }

  function Held(q: Table, id: u32, i: nat): nat {
    if id in q && i < |q[id].parts| && q[id].parts[i].Some? then 1 else 0
  }

  lemma ConservationStep(q: Table, c: Chunk, id: u32, i: nat)
    requires Inv(q) && c.index < c.total
    ensures var r := FeedChunk(q, c);
            (if c.id == id && c.total > i && r.out.Some? then 1 else 0) + Held(r.pending, id, i)
            <= Held(q, id, i) + (if c.id == id && c.index == i then 1 else 0)
  {
    var p := Shed(q, c.id);
    var e := EntryFor(p, c);
    if e.total == c.total {
      var f := Fill(e, c.index, c.payload);
      FilledWhenFull(f.parts);
      assert c.id == id && i < |f.parts| && f.parts[i].Some? ==>
          Held(p, id, i) == 1 || c.index == i;
    }
  }

  /** Every hand-out of a message consumes one arrival of each of its chunks, shedding or not, whatever
      the traffic. */
  lemma {:induction false} Conservation(t: seq<bytes>, id: u32, i: nat)
    ensures Deliveries(t, id, i) + Held(After(map[], t), id, i) <= Arrivals(t, id, i)
    decreases |t|
  {
    if t != [] {
      var init, x := t[..|t| - 1], t[|t| - 1];
      Conservation(init, id, i);
      if DecodeChunk(x).Some? {
        ConservationStep(After(map[], init), DecodeChunk(x).value, id, i);
      }
    }
  }
}
