/** The bundle record, its clocks and the scheduling key that orders a node's queue.

    Times and sizes are exact numbers. The two time fields that travel on the wire, `tGen`
    and `ttl`, stay 32-bit float patterns; every function that needs their value takes the
    reading `val` of such a pattern as a parameter. */
module Bundles {

  type NodeId = bv32
  type BundleId = bv64
  type U8 = n: nat | n < 0x100
  type U16 = n: nat | n < 0x1_0000
  type FloatReading = bv32 -> real

  const MAX_PAYLOAD: nat := 160
  const WIRE_HEADER: nat := 41
  const CRC_LEN: nat := 4
  const PRIO_MAX: nat := 3
  const TTL_ONE_HOUR: bv32 := 0x4561_0000  // the float pattern of 3600.0

  datatype Status =
    | Generated | Queued | Routing | Waiting | Transmitting | InTransit
    | Custody | Delivered | Disrupted | Expired | Terminated

  /** Fields that never travel: a decoded bundle starts with them reset. */
  datatype Runtime = Runtime(status: Status, retries: nat, nextHop: NodeId,
                             tSched: real, tTxStart: real, tArr: real)

  const RESET: Runtime := Runtime(Queued, 0, 0, 0.0, 0.0, 0.0)

  datatype Bundle = Bundle(
    id: BundleId, src: NodeId, dst: NodeId, curr: NodeId, cust: NodeId,
    size: U16, prio: U8, cls: U8, tGen: bv32, ttl: bv32, payload: seq<bv8>, run: Runtime)

  /** Length of the frame that carries `b`. */
  function FrameLength(b: Bundle): nat { WIRE_HEADER + |b.payload| + CRC_LEN }

  /** The fields a relay may not touch. */
  predicate SameOrigin(a: Bundle, b: Bundle) {
    && a.id == b.id && a.src == b.src && a.dst == b.dst && a.cls == b.cls && a.prio == b.prio
    && a.tGen == b.tGen && a.ttl == b.ttl && a.payload == b.payload
  }

  function Age(b: Bundle, t: real, val: FloatReading): real { t - val(b.tGen) }

  function RemainingTtl(b: Bundle, t: real, val: FloatReading): real { val(b.ttl) - Age(b, t, val) }

  function TExp(b: Bundle, val: FloatReading): real { val(b.tGen) + val(b.ttl) }

  predicate IsAlive(b: Bundle, t: real, val: FloatReading) { RemainingTtl(b, t, val) > 0.0 }

  function PriorityScore(b: Bundle): real { b.prio as real / PRIO_MAX as real }

  function Urgency(b: Bundle, t: real, eps: real, val: FloatReading): real
    requires eps != 0.0
  {
    var rttl := RemainingTtl(b, t, val);
    if eps < rttl && eps > 0.0 then 1.0 / rttl else 1.0 / eps
  }

  predicate HoldsCustody(b: Bundle) { b.cust != 0 && b.cust == b.curr }

  function SchedulingKey(b: Bundle, t: real, lam1: real, lam2: real, lam3: real, lam4: real,
                         sizePenaltyThreshold: real, val: FloatReading): real
  {
    var custBonus := if HoldsCustody(b) then 1.0 else 0.0;
    var sizePenalty := if b.size as real > sizePenaltyThreshold then 1.0 else 0.0;
    lam1 * PriorityScore(b) + lam2 * Urgency(b, t, 1.0, val) + lam3 * custBonus - lam4 * sizePenalty
  }

  /** The queue's ranking: the scheduling key under its fixed weights. */
  function Rank(b: Bundle, t: real, val: FloatReading): real {
    SchedulingKey(b, t, 1.0, 0.5, 0.3, 0.1, 1000000.0, val)
  }

  // ---- How far priority decides the order ----

  /** A priority gap of `g` puts `b` ahead of `c` whatever their ages, lifetimes and sizes. */
  ghost predicate GapDecides(g: nat, val: FloatReading) {
    forall b: Bundle, c: Bundle, t: real {:trigger Rank(b, t, val), Rank(c, t, val)} ::
      b.prio == c.prio + g ==> Rank(b, t, val) > Rank(c, t, val)
  }

  /** The same among bundles with equal custody bonus. */
  ghost predicate GapDecidesAtEqualCustody(g: nat, val: FloatReading) {
    forall b: Bundle, c: Bundle, t: real {:trigger Rank(b, t, val), Rank(c, t, val)} ::
      b.prio == c.prio + g && HoldsCustody(b) == HoldsCustody(c) ==> Rank(b, t, val) > Rank(c, t, val)
  }

  lemma UrgencyBounds(b: Bundle, t: real, val: FloatReading)
    ensures 0.0 < Urgency(b, t, 1.0, val) <= 1.0
  {
    var rttl := RemainingTtl(b, t, val);
    if 1.0 < rttl {
      assert rttl * (1.0 / rttl) == 1.0;
    }
  }

  lemma RankParts(b: Bundle, t: real, val: FloatReading)
    ensures Rank(b, t, val) == b.prio as real / 3.0 + 0.5 * Urgency(b, t, 1.0, val)
                               + (if HoldsCustody(b) then 0.3 else 0.0)
  {
  }

  /** Among bundles of equal priority and custody the one with the least time left is served first,
      down to one second left, where all tie. */
  lemma EqualsByDeadline(b: Bundle, c: Bundle, t: real, val: FloatReading)
    requires b.prio == c.prio && (b.cust == b.curr && b.cust != 0) == (c.cust == c.curr && c.cust != 0)
    ensures var left, other := val(b.tGen) + val(b.ttl) - t, val(c.tGen) + val(c.ttl) - t;
      Rank(b, t, val) > Rank(c, t, val) <==> other > 1.0 && left < other
  {
    RankParts(b, t, val);
    RankParts(c, t, val);
    var left, other := RemainingTtl(b, t, val), RemainingTtl(c, t, val);
    if 1.0 < left && 1.0 < other {
      InverseOrder(left, other);
    } else if 1.0 < left {
      InverseOrder(1.0, left);
    } else if 1.0 < other {
      InverseOrder(1.0, other);
    }
  }

  lemma InverseOrder(x: real, y: real)
    requires 0.0 < x && 0.0 < y
    ensures 1.0 / x > 1.0 / y <==> x < y
  {
    assert x * (1.0 / x) == 1.0 && y * (1.0 / y) == 1.0;
    assert (y - x) * (1.0 / x * (1.0 / y)) == 1.0 / x - 1.0 / y;
    assert 1.0 / x > 0.0 && 1.0 / y > 0.0;
    assert 1.0 / x * (1.0 / y) > 0.0;
  }

  /** Among bundles with the same time left, priority decides, and then whether this node has
      custody; size never matters. */
  lemma EqualDeadlines(b: Bundle, c: Bundle, t: real, val: FloatReading)
    requires val(b.tGen) + val(b.ttl) == val(c.tGen) + val(c.ttl)
    ensures var own, other := b.cust == b.curr && b.cust != 0, c.cust == c.curr && c.cust != 0;
      Rank(b, t, val) > Rank(c, t, val) <==> b.prio > c.prio || (b.prio == c.prio && own && !other)
  {
    RankParts(b, t, val);
    RankParts(c, t, val);
  }

  /** What time is worth: a bundle in its last second overtakes one of equal priority in custody
      when that has more than 2.5 s left, and one a priority higher when that has more than 3 s. */
  lemma LastSecondTrades(b: Bundle, c: Bundle, t: real, val: FloatReading)
    requires val(b.tGen) + val(b.ttl) - t <= 1.0
    ensures var own, other := b.cust == b.curr && b.cust != 0, c.cust == c.curr && c.cust != 0;
      var left := val(c.tGen) + val(c.ttl) - t;
      && (b.prio == c.prio && !own && other ==> (Rank(b, t, val) > Rank(c, t, val) <==> left > 2.5))
      && (b.prio + 1 == c.prio && own == other ==> (Rank(b, t, val) > Rank(c, t, val) <==> left > 3.0))
  {
    RankParts(b, t, val);
    RankParts(c, t, val);
    var left := RemainingTtl(c, t, val);
    if left > 1.0 {
      assert left * (1.0 / left) == 1.0;
      InverseOrder(2.5, left);
      InverseOrder(3.0, left);
      assert 1.0 / 2.5 == 0.4;
    }
  }

  /** A bundle is alive until its generation time plus its lifetime; then its urgency is at its top. */
  lemma AliveUntilDeadline(b: Bundle, t: real, val: FloatReading)
    ensures IsAlive(b, t, val) <==> t < val(b.tGen) + val(b.ttl)
    ensures !IsAlive(b, t, val) ==> forall c :: Urgency(c, t, 1.0, val) <= Urgency(b, t, 1.0, val)
  {
    forall c ensures Urgency(c, t, 1.0, val) <= 1.0 {
      UrgencyBounds(c, t, val);
    }
  }

  function Sample(prio: U8, ttl: bv32, cust: NodeId): Bundle {
    Bundle(0, 1, 2, 1, cust, 45, prio, 0, 0, ttl, [], RESET)
  }

  /** Priority alone decides the order exactly when the gap is at least 3, and at least 2
      between bundles whose custody bonus is equal: urgency weighs at most 0.5 and the custody
      bonus 0.3 against a third of a point per priority step. */
  lemma PriorityGap(g: nat, val: FloatReading)
    requires val(0) == 0.0 && val(TTL_ONE_HOUR) == 3600.0
    ensures GapDecides(g, val) <==> g >= 3
    ensures GapDecidesAtEqualCustody(g, val) <==> g >= 2
  {
    forall b: Bundle, c: Bundle, t: real | b.prio == c.prio + g
      ensures g >= 3 ==> Rank(b, t, val) > Rank(c, t, val)
      ensures g >= 2 && HoldsCustody(b) == HoldsCustody(c) ==> Rank(b, t, val) > Rank(c, t, val)
    {
      UrgencyBounds(b, t, val);
      UrgencyBounds(c, t, val);
      RankParts(b, t, val);
      RankParts(c, t, val);
    }
    if g < 3 {
      // A fresh bundle nobody holds against an expiring one in custody.
      var b, c := Sample(g, TTL_ONE_HOUR, 0), Sample(0, 0, 1);
      RankParts(b, 0.0, val);
      RankParts(c, 0.0, val);
      assert Urgency(b, 0.0, 1.0, val) == 1.0 / 3600.0;
      assert Rank(b, 0.0, val) <= Rank(c, 0.0, val);
    }
    if g < 2 {
      var b, c := Sample(g, TTL_ONE_HOUR, 0), Sample(0, 0, 0);
      RankParts(b, 0.0, val);
      RankParts(c, 0.0, val);
      assert Urgency(b, 0.0, 1.0, val) == 1.0 / 3600.0;
      assert Rank(b, 0.0, val) <= Rank(c, 0.0, val);
    }
  }
}
