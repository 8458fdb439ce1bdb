/** How often a message can be handed out when the network repeats its chunks. */
module Redelivery {
  import opened Bytes
  import opened Chunking
  import opened ChunkRuns

  /** The scarcest chunk of a message bounds its hand-outs, whatever the traffic. */
  lemma ScarcestChunkBounds(t: seq<bytes>, id: u32, data: bytes, i: nat)
    requires Fits(data) && OnlyChunksOf(t, id, data) && i < ChunkCount(data)
    ensures Deliveries(t, id, 0) <= Arrivals(t, id, i)
  {
    Conservation(t, id, i);
    DeliveriesAgree(t, id, data, i);
  }

  lemma {:induction false} DeliveriesAgree(t: seq<bytes>, id: u32, data: bytes, i: nat)
    requires Fits(data) && OnlyChunksOf(t, id, data) && i < ChunkCount(data)
    ensures Deliveries(t, id, i) == Deliveries(t, id, 0)
    decreases |t|
  {
    if t != [] {
      DeliveriesAgree(t[..|t| - 1], id, data, i);
      var x := t[|t| - 1];
      if Carries(x, id) {
        var j :| 0 <= j < ChunkCount(data) && Packets(id, data)[j] == x;
        PacketDecodes(id, data, j);
      }
    }
  }

  // ---------------------------------------------------------------- counting over concatenation

  lemma {:induction false} ArrivalsAppend(a: seq<bytes>, b: seq<bytes>, id: u32, i: nat)
    ensures Arrivals(a + b, id, i) == Arrivals(a, id, i) + Arrivals(b, id, i)
    decreases |b|
  {
    if b == [] {
      assert a + b == a;
    } else {
      assert (a + b)[..|a + b| - 1] == a + b[..|b| - 1];
      ArrivalsAppend(a, b[..|b| - 1], id, i);
    }
  }

  function Handed(q: Table, x: bytes, id: u32, i: nat): nat
    requires Inv(q)
  {
    if Carries(x, id) && DecodeChunk(x).value.total > i && Feed(q, x).out.Some? then 1 else 0
  }

  lemma DeliveriesStep(t: seq<bytes>, x: bytes, id: u32, i: nat)
    ensures Deliveries(t + [x], id, i) == Deliveries(t, id, i) + Handed(After(map[], t), x, id, i)
  {
    assert (t + [x])[..|t|] == t;
  }

  lemma {:induction false} DeliveriesAppend(a: seq<bytes>, b: seq<bytes>, id: u32, i: nat)
    ensures Deliveries(a + b, id, i) >= Deliveries(a, id, i)
    ensures After(map[], a) == map[] ==> Deliveries(a + b, id, i) == Deliveries(a, id, i) + Deliveries(b, id, i)
    decreases |b|
  {
    if b == [] {
      assert a + b == a;
    } else {
      var init, x := b[..|b| - 1], b[|b| - 1];
      assert a + b == (a + init) + [x] && b == init + [x];
      DeliveriesAppend(a, init, id, i);
      DeliveriesStep(a + init, x, id, i);
      DeliveriesStep(init, x, id, i);
      AfterAppend(map[], a, init);
    }
  }

  lemma DeliveriesAfterEmpty(a: seq<bytes>, b: seq<bytes>, id: u32, i: nat)
    requires After(map[], a) == map[]
    ensures Deliveries(a + b, id, i) == Deliveries(a, id, i) + Deliveries(b, id, i)
  {
    DeliveriesAppend(a, b, id, i);
  }

  // ---------------------------------------------------------------- a trace with many hand-outs

  lemma {:induction false} ArriveOnce(id: u32, data: bytes, k: nat, i: nat)
    requires Fits(data) && k <= ChunkCount(data)
    ensures Arrivals(Packets(id, data)[..k], id, i) == if i < k then 1 else 0
    decreases k
  {
    var pkts := Packets(id, data);
    if k > 0 {
      ArriveOnce(id, data, k - 1, i);
      assert pkts[..k][..k - 1] == pkts[..k - 1];
      PacketDecodes(id, data, k - 1);
    }
  }

  lemma {:induction false} DeliverOnce(id: u32, data: bytes, k: nat)
    requires Fits(data) && k <= ChunkCount(data)
    ensures Deliveries(Packets(id, data)[..k], id, 0) == if k == ChunkCount(data) then 1 else 0
    decreases k
  {
    var pkts := Packets(id, data);
    if k > 0 {
      DeliverOnce(id, data, k - 1);
      PacketDecodes(id, data, k - 1);
      InOrder(id, data);
      assert pkts[..k] == pkts[..k - 1] + [pkts[k - 1]];
      DeliveriesStep(pkts[..k - 1], pkts[k - 1], id, 0);
      assert Out(map[], pkts, k - 1) == Feed(After(map[], pkts[..k - 1]), pkts[k - 1]).out;
    }
  }

  function Times(t: seq<bytes>, m: nat): seq<bytes> {
    if m == 0 then [] else Times(t, m - 1) + t
  }

  lemma {:induction false} TimesDelivers(t: seq<bytes>, m: nat, whole: seq<bytes>, id: u32, i: nat)
    requires Deliveries(t, id, i) == 1 && After(map[], t) == map[] && whole == Times(t, m)
    ensures Deliveries(whole, id, i) == m && After(map[], whole) == map[]
  {
    if m > 0 {
      var before := Times(t, m - 1);
      TimesDelivers(t, m - 1, before, id, i);
      DeliveriesAfterEmpty(before, t, id, i);
      AfterAppend(map[], before, t);
      assert whole == before + t;
    }
  }

  lemma {:induction false} TimesCounts(t: seq<bytes>, m: nat, id: u32, i: nat)
    requires Arrivals(t, id, i) == 1
    ensures Arrivals(Times(t, m), id, i) == m
  {
    if m > 0 {
      TimesCounts(t, m - 1, id, i);
      ArrivalsAppend(Times(t, m - 1), t, id, i);
    }
  }

  lemma {:induction false} TimesContains(t: seq<bytes>, m: nat)
    ensures forall k :: 0 <= k < |Times(t, m)| ==> Times(t, m)[k] in t
  {
    if m > 0 {
      TimesContains(t, m - 1);
    }
  }

  lemma OnceThenEmpty(id: u32, data: bytes)
    requires Fits(data)
    ensures Deliveries(Packets(id, data), id, 0) == 1 && After(map[], Packets(id, data)) == map[]
    ensures forall i :: 0 <= i < ChunkCount(data) ==> Arrivals(Packets(id, data), id, i) == 1
  {
    var pkts := Packets(id, data);
    InOrder(id, data);
    assert pkts[..|pkts|] == pkts;
    forall i | 0 <= i < ChunkCount(data)
      ensures Arrivals(pkts, id, i) == 1
    {
      ArriveOnce(id, data, |pkts|, i);
    }
    DeliverOnce(id, data, |pkts|);
  }

  /** Repeating a message repeats its hand-out, for every frame within the limit. */
  lemma DuplicateIsRedelivered(id: u32, data: bytes, m: nat)
    requires Fits(data)
    ensures Deliveries(Times(Packets(id, data), m), id, 0) == m
    ensures forall i :: 0 <= i < ChunkCount(data) ==> Arrivals(Times(Packets(id, data), m), id, i) == m
    ensures OnlyChunksOf(Times(Packets(id, data), m), id, data)
  {
    var pkts := Packets(id, data);
    OnceThenEmpty(id, data);
    TimesDelivers(pkts, m, Times(pkts, m), id, 0);
    TimesContains(pkts, m);
    forall i | 0 <= i < ChunkCount(data)
      ensures Arrivals(Times(pkts, m), id, i) == m
    {
      TimesCounts(pkts, m, id, i);
    }
  }

  /** The first `k` chunks, each as often as `counts` exceeds `m`. */
  function Surplus(id: u32, data: bytes, counts: seq<nat>, m: nat, k: nat): seq<bytes>
    requires k <= |counts| == ChunkCount(data) && forall i :: 0 <= i < |counts| ==> counts[i] >= m
  {
    if k == 0 then []
    else Surplus(id, data, counts, m, k - 1) + seq(counts[k - 1] - m, _ => Packets(id, data)[k - 1])
  }

  lemma {:induction false} ArrivalsOfCopies(x: bytes, n: nat, id: u32, i: nat)
    requires Carries(x, id)
    ensures Arrivals(seq(n, _ => x), id, i) == if DecodeChunk(x).value.index == i then n else 0
  {
    if n > 0 {
      ArrivalsOfCopies(x, n - 1, id, i);
      assert seq(n, _ => x)[..n - 1] == seq(n - 1, _ => x);
    }
  }

  lemma {:induction false} SurplusCounts(id: u32, data: bytes, counts: seq<nat>, m: nat, k: nat, i: nat)
    requires Fits(data) && i < |counts|
    requires k <= |counts| == ChunkCount(data) && forall i :: 0 <= i < |counts| ==> counts[i] >= m
    ensures Arrivals(Surplus(id, data, counts, m, k), id, i) == if i < k then counts[i] - m else 0
    decreases k
  {
    if k > 0 {
      var x := Packets(id, data)[k - 1];
      var before, copies := Surplus(id, data, counts, m, k - 1), seq(counts[k - 1] - m, _ => x);
      SurplusCounts(id, data, counts, m, k - 1, i);
      PacketDecodes(id, data, k - 1);
      ArrivalsOfCopies(x, counts[k - 1] - m, id, i);
      ArrivalsAppend(before, copies, id, i);
      assert Surplus(id, data, counts, m, k) == before + copies;
    }
  }

  lemma {:induction false} SurplusContains(id: u32, data: bytes, counts: seq<nat>, m: nat, k: nat)
    requires k <= |counts| == ChunkCount(data) && forall i :: 0 <= i < |counts| ==> counts[i] >= m
    ensures forall n :: 0 <= n < |Surplus(id, data, counts, m, k)| ==> Surplus(id, data, counts, m, k)[n] in Packets(id, data)
    decreases k
  {
    if k > 0 {
      SurplusContains(id, data, counts, m, k - 1);
    }
  }

  /** Chunk `i` arrives `counts[i]` times. */
  predicate Counted(t: seq<bytes>, id: u32, counts: seq<nat>) {
    forall i :: 0 <= i < |counts| ==> Arrivals(t, id, i) == counts[i]
  }

  /** Exactly how often a message can be handed out: given how often each of its chunks arrives, some
      order of arrival hands it out `m` times if and only if every chunk arrives at least `m` times. So
      it is handed out at most once, whatever the order, exactly if some chunk arrives at most once. */
  lemma RedeliveryExactly(id: u32, data: bytes, counts: seq<nat>, m: nat)
    requires Fits(data) && |counts| == ChunkCount(data)
    ensures (exists t :: OnlyChunksOf(t, id, data) && Counted(t, id, counts) && Deliveries(t, id, 0) >= m)
            <==> forall i :: 0 <= i < |counts| ==> counts[i] >= m
  {
    if forall i :: 0 <= i < |counts| ==> counts[i] >= m {
      var whole, rest := Times(Packets(id, data), m), Surplus(id, data, counts, m, |counts|);
      DuplicateIsRedelivered(id, data, m);
      DeliveriesAppend(whole, rest, id, 0);
      SurplusContains(id, data, counts, m, |counts|);
      forall i | 0 <= i < |counts|
        ensures Arrivals(whole + rest, id, i) == counts[i]
      {
        SurplusCounts(id, data, counts, m, |counts|, i);
        ArrivalsAppend(whole, rest, id, i);
      }
      assert OnlyChunksOf(whole + rest, id, data) && Counted(whole + rest, id, counts);
    } else {
      var i :| 0 <= i < |counts| && counts[i] < m;
      forall t | OnlyChunksOf(t, id, data) && Counted(t, id, counts)
        ensures Deliveries(t, id, 0) < m
      {
        ScarcestChunkBounds(t, id, data, i);
      }
    }
  }
}
