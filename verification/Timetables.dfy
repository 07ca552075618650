/** Feasible routes as timetables. A bundle may wait at any node and leave at any moment a contact
    allows; the search simulates only the earliest departures, and loses nothing by it. */
module Timetables {
  import opened Bundles
  import opened Contacts
  import opened CgrModel

  // ---- Journeys ----

  /** One hop: the contact taken, when the bundle is at its sender, when it leaves, and how long
      it is on the air. */
  datatype Leg = Leg(contact: nat, ready: real, leaves: real, onAir: real)

  function HopsOf(legs: seq<Leg>): (p: Path)
    ensures |p| == |legs|
  {
    seq(|legs|, i requires 0 <= i < |legs| => legs[i].contact)
  }

  predicate Listed(cs: seq<Contact>, legs: seq<Leg>) { forall i :: 0 <= i < |legs| ==> legs[i].contact < |cs| }

  function Received(cs: seq<Contact>, leg: Leg): real
    requires leg.contact < |cs|
  {
    leg.leaves + leg.onAir + cs[leg.contact].owlt
  }

  /** When a journey that starts at `t` is over. */
  function ArrivalOf(cs: seq<Contact>, t: real, legs: seq<Leg>): real
    requires Listed(cs, legs)
  {
    if legs == [] then t else Received(cs, legs[|legs| - 1])
  }

  /** The node a journey has reached. */
  function EndOf(cs: seq<Contact>, b: Bundle, legs: seq<Leg>): NodeId
    requires Listed(cs, legs)
  {
    if legs == [] then b.curr else cs[legs[|legs| - 1].contact].to
  }

  /** The bundle crosses while the contact is open and has room, is received alive, and has at
      least even odds of crossing without a bit error if that is asked for. A contact that is not
      known to be up must be reached before it opens. */
  predicate LegOk(cs: seq<Contact>, b: Bundle, cfg: Config, val: FloatReading, leg: Leg)
    requires leg.contact < |cs|
  {
    var c, size := cs[leg.contact], b.size as real;
    && (if c.rate > 0.0 then Carried(c.rate, leg.onAir) == size else leg.onAir == NEVER)
    && leg.ready <= leg.leaves && c.tStart <= leg.leaves < c.tEnd && leg.leaves + leg.onAir <= c.tEnd
    && (c.status == Up || (c.status == Uncertain && leg.ready < c.tStart))
    && Carried(c.rate, c.tEnd - leg.leaves) >= c.bytesUsed + c.reserved + size
    && IsAlive(b, Received(cs, leg), val)
    && (cfg.berAware ==> EvenOdds(c.ber, 8 * b.size))
  }

  /** Where and when the bundle is before leg `i`. */
  predicate Linked(cs: seq<Contact>, b: Bundle, t: real, legs: seq<Leg>, i: nat)
    requires Listed(cs, legs) && i < |legs|
  {
    if i == 0 then cs[legs[0].contact].frm == b.curr && legs[0].ready == t
    else
      && cs[legs[i].contact].frm == cs[legs[i - 1].contact].to
      && legs[i].ready == Received(cs, legs[i - 1])
  }

  /** A journey of `b` from where it is at `t`. */
  predicate Journey(cs: seq<Contact>, b: Bundle, t: real, cfg: Config, val: FloatReading, legs: seq<Leg>) {
    Listed(cs, legs) && forall i :: 0 <= i < |legs| ==> LegOk(cs, b, cfg, val, legs[i]) && Linked(cs, b, t, legs, i)
  }

  /** A journey that ends at the bundle's destination. */
  predicate Timetable(cs: seq<Contact>, b: Bundle, t: real, cfg: Config, val: FloatReading, legs: seq<Leg>) {
    legs != [] && Listed(cs, legs) && Journey(cs, b, t, cfg, val, legs) && EndOf(cs, b, legs) == b.dst
  }

  // ---- Even odds ----

  function Power(x: real, n: nat): real { if n == 0 then 1.0 else Times(x, Power(x, n - 1)) }

  /** `bits` bits cross without an error with probability one half at least. */
  predicate EvenOdds(ber: real, bits: nat) { ber <= 0.0 || (ber < 1.0 && Power(1.0 - ber, bits) >= 0.5) }

  ghost predicate Logarithm(ln: real -> real) {
    && (forall x, y {:trigger ln(Times(x, y))} :: 0.0 < x && 0.0 < y ==> ln(Times(x, y)) == ln(x) + ln(y))
    && (forall x, y :: 0.0 < x < y ==> ln(x) < ln(y))
  }

  lemma LogarithmIsMonotone(ln: real -> real)
    requires Logarithm(ln)
    ensures Monotone(ln)
  {
  }

  lemma LogOfTimes(ln: real -> real, x: real, y: real)
    requires Logarithm(ln) && 0.0 < x && 0.0 < y
    ensures ln(Times(x, y)) == ln(x) + ln(y) && 0.0 < Times(x, y)
  {
  }

  lemma LogOfOne(ln: real -> real)
    requires Logarithm(ln)
    ensures ln(1.0) == 0.0
  {
    LogOfTimes(ln, 1.0, 1.0);
    assert Times(1.0, 1.0) == 1.0;
  }

  lemma OneMore(n: nat, l: real)
    requires n > 0
    ensures n as real * l == (n - 1) as real * l + l
  {
  }

  lemma {:induction false} LogOfPower(ln: real -> real, x: real, n: nat)
    requires Logarithm(ln) && 0.0 < x
    ensures 0.0 < Power(x, n) && ln(Power(x, n)) == n as real * ln(x)
  {
    hide Logarithm, Times;
    if n == 0 {
      LogOfOne(ln);
    } else {
      LogOfPower(ln, x, n - 1);
      LogOfTimes(ln, x, Power(x, n - 1));
      OneMore(n, ln(x));
    }
  }

  /** The test in log space asks for even odds. */
  lemma BerIsEvenOdds(c: Contact, size: nat, ln: real -> real)
    requires Logarithm(ln)
    ensures BerFeasible(c, size as real, ln) <==> EvenOdds(c.ber, 8 * size)
  {
    hide Logarithm, Power;
    var p := 1.0 - c.ber;
    if 0.0 < c.ber && 0.0 < p {
      LogOfPower(ln, p, 8 * size);
      LogOrder(ln, Power(p, 8 * size), 0.5);
      BitCount(size, ln(p));
    }
  }

  lemma BitCount(size: nat, l: real)
    ensures (8 * size) as real * l == 8.0 * size as real * l
  {
    assert (8 * size) as real == 8.0 * size as real;
  }

  lemma LogOrder(ln: real -> real, x: real, y: real)
    requires Logarithm(ln) && 0.0 < x && 0.0 < y
    ensures ln(x) >= ln(y) <==> x >= y
  {
  }

  // ---- Earliest departures lose nothing ----

  lemma TimeOnAir(c: Contact, size: real, d: real)
    requires c.rate > 0.0
    ensures Carried(c.rate, d) == size <==> d == TxDuration(c, size)
  {
    assert Carried(c.rate, size / c.rate) == size;
    if Carried(c.rate, d) == size {
      assert c.rate * (d - size / c.rate) == 0.0;
    }
  }

  lemma RatelessNever(c: Contact, size: real)
    requires c.rate <= 0.0
    ensures TxDuration(c, size) == NEVER
  {
  }

  /** A contact is usable on arrival exactly when leaving at the earliest start is a proper leg. */
  lemma UsableIsLeg(cs: seq<Contact>, b: Bundle, t: real, cfg: Config, ln: real -> real, val: FloatReading,
                    j: nat, at: real)
    requires j < |cs| && Logarithm(ln)
    ensures var q, c := QueryOf(cs, b, t, cfg, ln, val), cs[j];
      var leg := Leg(j, at, EarliestStart(c, at), TxDuration(c, b.size as real));
      (Usable(q, j, at) <==> LegOk(cs, b, cfg, val, leg)) && HopArrival(q, j, at) == Received(cs, leg)
  {
    hide Carried, TxDuration, BerFeasible, EvenOdds;
    var c := cs[j];
    BerIsEvenOdds(c, b.size, ln);
    if c.rate > 0.0 {
      TimeOnAir(c, b.size as real, TxDuration(c, b.size as real));
    } else {
      RatelessNever(c, b.size as real);
    }
  }

  /** Leaving late is never better: the contact is usable on the same arrival, and the earliest
      departure is received no later. */
  lemma LateLeg(cs: seq<Contact>, b: Bundle, t: real, cfg: Config, ln: real -> real, val: FloatReading, leg: Leg)
    requires leg.contact < |cs| && Logarithm(ln) && LegOk(cs, b, cfg, val, leg)
    requires 0.0 <= cs[leg.contact].bytesUsed && 0.0 <= cs[leg.contact].reserved
    ensures var q := QueryOf(cs, b, t, cfg, ln, val);
      Usable(q, leg.contact, leg.ready) && HopArrival(q, leg.contact, leg.ready) <= Received(cs, leg)
  {
    hide Carried, TxDuration, EvenOdds;
    var c, size := cs[leg.contact], b.size as real;
    var start := EarliestStart(c, leg.ready);
    if c.rate > 0.0 {
      TimeOnAir(c, size, leg.onAir);
    } else {
      RatelessNever(c, size);
    }
    CarriedPositive(c.rate, c.tEnd - leg.leaves);
    CarriedOrder(c.rate, c.tEnd - leg.leaves, c.tEnd - start);
    BerIsEvenOdds(c, b.size, ln);
    assert IsAlive(b, start + leg.onAir + c.owlt, val);
    hide BerFeasible;
  }

  lemma EarlierJourney(cs: seq<Contact>, b: Bundle, t: real, cfg: Config, val: FloatReading, legs: seq<Leg>)
    requires Journey(cs, b, t, cfg, val, legs) && legs != []
    ensures var pre, leg := legs[..|legs| - 1], legs[|legs| - 1];
      && Journey(cs, b, t, cfg, val, pre) && HopsOf(pre) == HopsOf(legs)[..|legs| - 1]
      && leg.contact < |cs| && LegOk(cs, b, cfg, val, leg) && leg.ready == ArrivalOf(cs, t, pre)
      && cs[leg.contact].frm == EndOf(cs, b, pre)
  {
    hide LegOk;
    var n := |legs| - 1;
    var pre := legs[..n];
    forall i | 0 <= i < |pre| ensures LegOk(cs, b, cfg, val, pre[i]) && Linked(cs, b, t, pre, i) {
      assert Linked(cs, b, t, legs, i) && pre[i] == legs[i];
    }
    assert Linked(cs, b, t, legs, n);
  }

  /** Whatever departures a journey waits for, its contacts are a walk that arrives no later. */
  lemma {:induction false} JourneyIsWalk(cs: seq<Contact>, b: Bundle, t: real, cfg: Config, ln: real -> real,
                                         val: FloatReading, legs: seq<Leg>)
    requires PlanOk(QueryOf(cs, b, t, cfg, ln, val)) && Logarithm(ln) && Journey(cs, b, t, cfg, val, legs)
    ensures var q, p := QueryOf(cs, b, t, cfg, ln, val), HopsOf(legs);
      InPlan(q, p) && Walk(q, p) && ArriveAt(q, p) <= ArrivalOf(cs, t, legs)
  {
    hide Usable, HopArrival, LegOk, Logarithm;
    var q, p := QueryOf(cs, b, t, cfg, ln, val), HopsOf(legs);
    if legs == [] {
    } else {
      var pre, leg := legs[..|legs| - 1], legs[|legs| - 1];
      EarlierJourney(cs, b, t, cfg, val, legs);
      JourneyIsWalk(cs, b, t, cfg, ln, val, pre);
      LateLeg(cs, b, t, cfg, ln, val, leg);
      Exchange(q, leg.contact, ArriveAt(q, p[..|p| - 1]), leg.ready);
    }
  }

  /** The journey that always leaves at once. */
  function Prompt(q: Query, p: Path): (legs: seq<Leg>)
    requires InPlan(q, p)
    ensures |legs| == |p|
  {
    if p == [] then []
    else
      var j, at := p[|p| - 1], ArriveAt(q, p[..|p| - 1]);
      Prompt(q, p[..|p| - 1]) + [Leg(j, at, EarliestStart(q.cs[j], at), TxDuration(q.cs[j], q.size as real))]
  }

  lemma JourneyExtends(cs: seq<Contact>, b: Bundle, t: real, cfg: Config, val: FloatReading, pre: seq<Leg>, leg: Leg)
    requires Journey(cs, b, t, cfg, val, pre) && leg.contact < |cs| && LegOk(cs, b, cfg, val, leg)
    requires leg.ready == ArrivalOf(cs, t, pre) && cs[leg.contact].frm == EndOf(cs, b, pre)
    ensures var legs := pre + [leg];
      && Listed(cs, legs) && Journey(cs, b, t, cfg, val, legs) && HopsOf(legs) == HopsOf(pre) + [leg.contact]
      && ArrivalOf(cs, t, legs) == Received(cs, leg) && EndOf(cs, b, legs) == cs[leg.contact].to
  {
    hide LegOk;
    var legs := pre + [leg];
    forall i | 0 <= i < |legs| ensures LegOk(cs, b, cfg, val, legs[i]) && Linked(cs, b, t, legs, i) {
      if i < |pre| {
        assert Linked(cs, b, t, pre, i) && legs[i] == pre[i];
      }
    }
  }

  lemma {:induction false} WalkIsJourney(cs: seq<Contact>, b: Bundle, t: real, cfg: Config, ln: real -> real,
                                         val: FloatReading, p: Path)
    requires InPlan(QueryOf(cs, b, t, cfg, ln, val), p) && Walk(QueryOf(cs, b, t, cfg, ln, val), p) && Logarithm(ln)
    ensures var q := QueryOf(cs, b, t, cfg, ln, val); var legs := Prompt(q, p);
      && Listed(cs, legs) && Journey(cs, b, t, cfg, val, legs) && HopsOf(legs) == p
      && ArrivalOf(cs, t, legs) == ArriveAt(q, p) && EndOf(cs, b, legs) == End(q, p)
  {
    hide Usable, HopArrival, LegOk, TxDuration, EarliestStart, Logarithm, Received;
    var q := QueryOf(cs, b, t, cfg, ln, val);
    if p == [] {
    } else {
      hide Journey, ArrivalOf, EndOf;
      var n := |p| - 1;
      WalkIsJourney(cs, b, t, cfg, ln, val, p[..n]);
      UsableIsLeg(cs, b, t, cfg, ln, val, p[n], ArriveAt(q, p[..n]));
      var leg := Prompt(q, p)[n];
      JourneyExtends(cs, b, t, cfg, val, Prompt(q, p[..n]), leg);
      assert p == p[..n] + [p[n]];
    }
  }

  /** A route is feasible exactly when some timetable takes its contacts, leaving whenever it may;
      the route's arrival time is the earliest of them all. */
  lemma FeasibleIffTimetable(cs: seq<Contact>, b: Bundle, t: real, cfg: Config, ln: real -> real,
                             val: FloatReading, p: Path)
    requires PlanOk(QueryOf(cs, b, t, cfg, ln, val)) && Logarithm(ln)
    ensures FeasibleRoute(QueryOf(cs, b, t, cfg, ln, val), p)
            <==> exists legs :: Timetable(cs, b, t, cfg, val, legs) && HopsOf(legs) == p
    ensures FeasibleRoute(QueryOf(cs, b, t, cfg, ln, val), p) ==>
              var at := ArriveAt(QueryOf(cs, b, t, cfg, ln, val), p);
              && (exists legs :: Timetable(cs, b, t, cfg, val, legs) && HopsOf(legs) == p
                                 && ArrivalOf(cs, t, legs) == at)
              && (forall legs :: Timetable(cs, b, t, cfg, val, legs) && HopsOf(legs) == p ==>
                    at <= ArrivalOf(cs, t, legs))
  {
    hide Walk, Journey, ArriveAt, PlanOk, Logarithm;
    var q := QueryOf(cs, b, t, cfg, ln, val);
    forall legs: seq<Leg> | Timetable(cs, b, t, cfg, val, legs) && HopsOf(legs) == p
      ensures FeasibleRoute(q, p) && ArriveAt(q, p) <= ArrivalOf(cs, t, legs)
    {
      JourneyIsWalk(cs, b, t, cfg, ln, val, legs);
      assert p[|p| - 1] == legs[|legs| - 1].contact;
    }
    if FeasibleRoute(q, p) {
      WalkIsJourney(cs, b, t, cfg, ln, val, p);
      var legs := Prompt(q, p);
      assert HopsOf(legs)[|p| - 1] == legs[|p| - 1].contact;
      assert Timetable(cs, b, t, cfg, val, legs);
    }
  }
}
