/** Connection ids: three 64-bit counters that start in different ranges. */
module ConnIds {
  const TWO64: nat := 0x1_0000_0000_0000_0000

  datatype DriverKind = WsDriver | PunchDriver | RtcDriver

  /** Where the counter of each transport starts. */
  function Base(kind: DriverKind): nat {
    match kind
    case WsDriver => 1
    case PunchDriver => 1_000_000
    case RtcDriver => 2_000_000
  }

  /** The id handed out by the `ticket`-th `fetch_add` on a counter (which wraps). */
  function IdOf(kind: DriverKind, ticket: nat): nat {
    (Base(kind) + ticket) % TWO64
  }

  /** How many ids each transport has handed out. */
  datatype Issued = Issued(ws: nat, punch: nat, rtc: nat) {
    function Of(kind: DriverKind): nat {
      match kind
      case WsDriver => ws
      case PunchDriver => punch
      case RtcDriver => rtc
    }
  }

  ghost predicate AllDistinct(n: Issued) {
    forall k1, t1: nat, k2, t2: nat :: t1 < n.Of(k1) && t2 < n.Of(k2) && IdOf(k1, t1) == IdOf(k2, t2) ==>
      k1 == k2 && t1 == t2
  }

  /** The counters have not run into each other's range: neither upwards nor around the top. */
  predicate Apart(n: Issued, lower: DriverKind, upper: DriverKind)
    requires Base(lower) < Base(upper)
  {
    n.Of(lower) > 0 && n.Of(upper) > 0 ==>
      Base(lower) + n.Of(lower) <= Base(upper) && Base(upper) + n.Of(upper) <= Base(lower) + TWO64
  }

  predicate Room(n: Issued) {
    (forall k :: n.Of(k) <= TWO64) &&
    Apart(n, WsDriver, PunchDriver) && Apart(n, PunchDriver, RtcDriver) && Apart(n, WsDriver, RtcDriver)
  }

  lemma WrapsOnce(x: nat, y: nat)
    requires x <= y < x + TWO64 && x % TWO64 == y % TWO64
    ensures x == y
  {
    var q, r := x / TWO64, y / TWO64;
    assert x == q * TWO64 + x % TWO64 && y == r * TWO64 + y % TWO64;
    assert y - x == (r - q) * TWO64;
  }

  lemma CollisionFree(n: Issued, k1: DriverKind, t1: nat, k2: DriverKind, t2: nat)
    requires Room(n) && t1 < n.Of(k1) && t2 < n.Of(k2) && IdOf(k1, t1) == IdOf(k2, t2)
    requires Base(k1) + t1 <= Base(k2) + t2
    ensures k1 == k2 && t1 == t2
  {
    assert Base(k2) + t2 < Base(k1) + t1 + TWO64;
    WrapsOnce(Base(k1) + t1, Base(k2) + t2);
  }

  lemma Collision(n: Issued, lower: DriverKind, upper: DriverKind)
    requires Base(lower) < Base(upper) && !Apart(n, lower, upper)
    requires n.Of(lower) <= TWO64 && n.Of(upper) <= TWO64
    ensures !AllDistinct(n)
  {
    var gap := Base(upper) - Base(lower);
    if Base(lower) + n.Of(lower) > Base(upper) {
      assert IdOf(lower, gap) == IdOf(upper, 0);
    } else {
      var t := TWO64 - gap;
      assert Base(upper) + t == Base(lower) + TWO64;
      assert IdOf(upper, t) == IdOf(lower, 0);
    }
  }

  /** The ids of all drivers are pairwise distinct exactly as long as the counters have room; in
      particular while fewer than 999,999 WebSocket and 1,000,000 punch ids have been issued. */
  lemma IdsDistinctExactly(n: Issued)
    ensures AllDistinct(n) <==> Room(n)
    ensures n.ws <= 999_999 && n.punch <= 1_000_000 && n.rtc < TWO64 - 2_000_000 ==> Room(n)
  {
    if Room(n) {
      forall k1, t1: nat, k2, t2: nat | t1 < n.Of(k1) && t2 < n.Of(k2) && IdOf(k1, t1) == IdOf(k2, t2)
        ensures k1 == k2 && t1 == t2
      {
        if Base(k1) + t1 <= Base(k2) + t2 {
          CollisionFree(n, k1, t1, k2, t2);
        } else {
          CollisionFree(n, k2, t2, k1, t1);
        }
      }
    } else if exists k :: n.Of(k) > TWO64 {
      var k :| n.Of(k) > TWO64;
      assert IdOf(k, 0) == IdOf(k, TWO64);
    } else if !Apart(n, WsDriver, PunchDriver) {
      Collision(n, WsDriver, PunchDriver);
    } else if !Apart(n, PunchDriver, RtcDriver) {
      Collision(n, PunchDriver, RtcDriver);
    } else {
      Collision(n, WsDriver, RtcDriver);
    }
  }
}
