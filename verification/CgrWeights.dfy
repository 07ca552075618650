/** What each weight of the cost asks for, and the answer of the search read as a timetable. */
module CgrWeights {
  import opened Bundles
  import opened Contacts
  import opened CgrModel
  import opened CgrSearch
  import opened CgrTheorems
  import opened Timetables

  // ---- The parts of the cost ----

  /** The odds that every hop of a route works out. */
  function Odds(cs: seq<Contact>, p: Path): real
    requires forall i :: 0 <= i < |p| ==> p[i] < |cs|
  {
    if p == [] then 1.0 else cs[p[0]].conf * Odds(cs, p[1..])
  }

  /** Odds below one in 10^12 count as that. */
  function Floored(odds: real): real { if odds > 0.000000000001 then odds else 0.000000000001 }

  lemma Reassociate(x: real, y: real, z: real)
    ensures (x * y) * z == x * (y * z)
  {
  }

  lemma {:induction false} OddsAppend(cs: seq<Contact>, p: Path, j: nat)
    requires j < |cs| && forall i :: 0 <= i < |p| ==> p[i] < |cs|
    ensures Odds(cs, p + [j]) == Odds(cs, p) * cs[j].conf
  {
    if p == [] {
      assert (p + [j])[1..] == [];
    } else {
      OddsAppend(cs, p[1..], j);
      assert (p + [j])[1..] == p[1..] + [j];
      Reassociate(cs[p[0]].conf, Odds(cs, p[1..]), cs[j].conf);
    }
  }

  lemma {:induction false} ConfIsOdds(q: Query, p: Path)
    requires InPlan(q, p)
    ensures ConfOf(q, p) == Odds(q.cs, p)
  {
    if p == [] {
    } else {
      var pre := p[..|p| - 1];
      ConfIsOdds(q, pre);
      OddsAppend(q.cs, pre, p[|p| - 1]);
      assert p == pre + [p[|p| - 1]];
    }
  }

  /** Bytes contact `c` can still carry from `start` on, besides a bundle of `size`. */
  function Spare(c: Contact, start: real, size: real): real {
    Carried(c.rate, c.tEnd - start) - c.bytesUsed - c.reserved - size
  }

  /** `m` is the least spare capacity over the hops of a walk taken at once, 10^30 for none. */
  ghost predicate TightestSpare(q: Query, p: Path, m: real)
    requires InPlan(q, p)
  {
    var legs := Prompt(q, p);
    && |legs| == |p|
    && (forall i :: 0 <= i < |p| ==> m <= Spare(q.cs[p[i]], legs[i].leaves, q.size as real))
    && (m == 1000000000000000000000000000000.0
        || exists i :: 0 <= i < |p| && m == Spare(q.cs[p[i]], legs[i].leaves, q.size as real))
  }

  lemma HopSpare(q: Query, j: nat, at: real)
    requires j < |q.cs| && Usable(q, j, at)
    ensures HopMargin(q, j, at) == Spare(q.cs[j], EarliestStart(q.cs[j], at), q.size as real)
  {
    hide Carried, TxDuration, BerFeasible;
  }

  lemma {:induction false} MarginIsTightest(q: Query, p: Path)
    requires InPlan(q, p) && Walk(q, p)
    ensures TightestSpare(q, p, MinMargin(q, p))
  {
    hide Usable, HopArrival, HopMargin, Spare, EarliestStart, TxDuration;
    if p == [] {
    } else {
      var n := |p| - 1;
      MarginIsTightest(q, p[..n]);
      HopSpare(q, p[n], ArriveAt(q, p[..n]));
      SpareExtends(q, p);
    }
  }

  lemma SpareExtends(q: Query, p: Path)
    requires p != [] && InPlan(q, p) && TightestSpare(q, p[..|p| - 1], MinMargin(q, p[..|p| - 1]))
    requires var n := |p| - 1; var at := ArriveAt(q, p[..n]);
      HopMargin(q, p[n], at) == Spare(q.cs[p[n]], EarliestStart(q.cs[p[n]], at), q.size as real)
    ensures TightestSpare(q, p, MinMargin(q, p))
  {
    hide HopArrival, HopMargin, Spare, EarliestStart, TxDuration;
    var n, size := |p| - 1, q.size as real;
    var pre, legs := Prompt(q, p[..n]), Prompt(q, p);
    assert forall i :: 0 <= i < n ==> legs[i] == pre[i] && p[i] == p[..n][i];
    var m, rest := HopMargin(q, p[n], ArriveAt(q, p[..n])), MinMargin(q, p[..n]);
    assert m == Spare(q.cs[p[n]], legs[n].leaves, size);
    if !(m < rest) && rest != MARGIN_TOP {
      var i :| 0 <= i < n && rest == Spare(q.cs[p[..n][i]], pre[i].leaves, size);
      assert rest == Spare(q.cs[p[i]], legs[i].leaves, size);
    }
  }

  /** `cost` weighs delay, odds and least spare capacity `m` of a walk, each with its own weight. */
  ghost predicate PlainCost(q: Query, p: Path, cost: real, m: real)
    requires InPlan(q, p)
  {
    && TightestSpare(q, p, m)
    && cost == q.cfg.w1 * (ArriveAt(q, p) - q.t) - q.cfg.w2 * q.ln(Floored(Odds(q.cs, p))) - q.cfg.w3 * m
  }

  /** The cost of a walk is its delay, the odds that it works out and its least spare capacity,
      each times its own weight. */
  lemma CostInPlainTerms(q: Query, p: Path)
    requires InPlan(q, p) && Walk(q, p)
    ensures exists m :: PlainCost(q, p, Cost(q, p, ArriveAt(q, p)), m)
  {
    hide TightestSpare, MinMargin, ArriveAt, ConfOf, Odds, Walk;
    MarginIsTightest(q, p);
    ConfIsOdds(q, p);
    var m := MinMargin(q, p);
    assert PlainCost(q, p, Cost(q, p, ArriveAt(q, p)), m);
  }

  /** Two walks alike but for arrival differ by the delay weight times the difference, and so on. */
  lemma CostDifferences(q: Query, p: Path, r: Path)
    requires InPlan(q, p) && InPlan(q, r)
    ensures var c, d := Cost(q, p, ArriveAt(q, p)), Cost(q, r, ArriveAt(q, r));
      var sameArrival, sameOdds, sameMargin :=
        ArriveAt(q, p) == ArriveAt(q, r), Odds(q.cs, p) == Odds(q.cs, r), MinMargin(q, p) == MinMargin(q, r);
      && (sameOdds && sameMargin ==> c - d == q.cfg.w1 * (ArriveAt(q, p) - ArriveAt(q, r)))
      && (sameArrival && sameMargin ==>
            c - d == q.cfg.w2 * (q.ln(Floored(Odds(q.cs, r))) - q.ln(Floored(Odds(q.cs, p)))))
      && (sameArrival && sameOdds ==> c - d == q.cfg.w3 * (MinMargin(q, r) - MinMargin(q, p)))
  {
    hide MinMargin, ArriveAt, ConfOf, Odds;
    ConfIsOdds(q, p);
    ConfIsOdds(q, r);
  }

  // ---- The route picked, against every timetable ----

  /** `route` records a timetable of the bundle, with its arrival time. */
  ghost predicate Delivers(cs: seq<Contact>, b: Bundle, t: real, cfg: Config, val: FloatReading, route: Route) {
    exists legs :: Timetable(cs, b, t, cfg, val, legs) && HopsOf(legs) == route.hops
                   && ArrivalOf(cs, t, legs) == route.arrival
  }

  /** No timetable gets the bundle there earlier. */
  ghost predicate Earliest(cs: seq<Contact>, b: Bundle, t: real, cfg: Config, val: FloatReading, route: Route) {
    forall legs :: Timetable(cs, b, t, cfg, val, legs) ==> route.arrival <= ArrivalOf(cs, t, legs)
  }

  /** No timetable has better odds, above the floor. */
  ghost predicate Surest(cs: seq<Contact>, b: Bundle, t: real, cfg: Config, val: FloatReading, route: Route) {
    && (forall i :: 0 <= i < |route.hops| ==> route.hops[i] < |cs|)
    && forall legs :: Timetable(cs, b, t, cfg, val, legs) ==>
         Floored(Odds(cs, route.hops)) >= Floored(Odds(cs, HopsOf(legs)))
  }

  /** Delay against odds. */
  function Outlay(cs: seq<Contact>, t: real, cfg: Config, ln: real -> real, hops: Path, arrival: real): real
    requires forall i :: 0 <= i < |hops| ==> hops[i] < |cs|
  {
    cfg.w1 * (arrival - t) - cfg.w2 * ln(Floored(Odds(cs, hops)))
  }

  /** No timetable is better, delay and odds weighed as configured. */
  ghost predicate LeastOutlay(cs: seq<Contact>, b: Bundle, t: real, cfg: Config, ln: real -> real,
                              val: FloatReading, route: Route) {
    && (forall i :: 0 <= i < |route.hops| ==> route.hops[i] < |cs|)
    && forall legs :: Timetable(cs, b, t, cfg, val, legs) ==>
         Outlay(cs, t, cfg, ln, route.hops, route.arrival)
         <= Outlay(cs, t, cfg, ln, HopsOf(legs), ArrivalOf(cs, t, legs))
  }

  lemma TimetableIsRoute(cs: seq<Contact>, b: Bundle, t: real, cfg: Config, ln: real -> real, val: FloatReading,
                         legs: seq<Leg>)
    requires PlanOk(QueryOf(cs, b, t, cfg, ln, val)) && Logarithm(ln) && Timetable(cs, b, t, cfg, val, legs)
    ensures FeasibleRoute(QueryOf(cs, b, t, cfg, ln, val), HopsOf(legs))
    ensures ArriveAt(QueryOf(cs, b, t, cfg, ln, val), HopsOf(legs)) <= ArrivalOf(cs, t, legs)
  {
    hide Walk, Journey, ArriveAt, PlanOk, Logarithm;
    FeasibleIffTimetable(cs, b, t, cfg, ln, val, HopsOf(legs));
  }

  lemma OutlayOfCost(q: Query, p: Path, arrival: real)
    requires InPlan(q, p) && q.cfg.w3 == 0.0
    ensures Cost(q, p, arrival) == Outlay(q.cs, q.t, q.cfg, q.ln, p, arrival)
  {
    hide MinMargin, ConfOf, Odds;
    ConfIsOdds(q, p);
    assert 0.0 * MinMargin(q, p) == 0.0;
  }

  lemma LaterCostsMore(cs: seq<Contact>, t: real, cfg: Config, ln: real -> real, p: Path, a: real, a': real)
    requires (forall i :: 0 <= i < |p| ==> p[i] < |cs|) && cfg.w1 >= 0.0 && a <= a'
    ensures Outlay(cs, t, cfg, ln, p, a) <= Outlay(cs, t, cfg, ln, p, a')
  {
    assert cfg.w1 * (a' - a) >= 0.0;
  }

  /** With no weight on the margin the route picked has the least outlay of all timetables. */
  lemma CheapestHasLeastOutlay(cs: seq<Contact>, b: Bundle, t: real, cfg: Config, ln: real -> real,
                               val: FloatReading, route: Route)
    requires var q := QueryOf(cs, b, t, cfg, ln, val);
      PlanOk(q) && Logarithm(ln) && IsRoute(q, route) && CheapestRoute(q, route)
    requires cfg.w1 >= 0.0 && cfg.w3 == 0.0
    ensures LeastOutlay(cs, b, t, cfg, ln, val, route)
  {
    hide Walk, Journey, ArriveAt, PlanOk, Logarithm, Cost, Outlay, Timetable, VisitedOf;
    var q := QueryOf(cs, b, t, cfg, ln, val);
    OutlayOfCost(q, route.hops, route.arrival);
    forall legs | Timetable(cs, b, t, cfg, val, legs)
      ensures Listed(cs, legs) && Outlay(cs, t, cfg, ln, route.hops, route.arrival)
              <= Outlay(cs, t, cfg, ln, HopsOf(legs), ArrivalOf(cs, t, legs))
    {
      var r := HopsOf(legs);
      ListedTimetable(cs, b, t, cfg, val, legs);
      TimetableIsRoute(cs, b, t, cfg, ln, val, legs);
      OutlayOfCost(q, r, ArriveAt(q, r));
      LaterCostsMore(cs, t, cfg, ln, r, ArriveAt(q, r), ArrivalOf(cs, t, legs));
    }
  }

  lemma Positive(w: real, d: real)
    requires w > 0.0 && w * d >= 0.0
    ensures d >= 0.0
  {
  }

  lemma LighterIsLess(w: real, x: real, y: real)
    requires w > 0.0 && w * x <= w * y
    ensures x <= y
  {
    assert w * x <= w * y ==> w * (y - x) >= 0.0;
    Positive(w, y - x);
  }

  /** Only delay counts: an earliest-arrival route. */
  lemma DelayAloneMeansEarliest(cs: seq<Contact>, b: Bundle, t: real, cfg: Config, ln: real -> real,
                                val: FloatReading, route: Route)
    requires LeastOutlay(cs, b, t, cfg, ln, val, route) && cfg.w1 > 0.0 && cfg.w2 == 0.0
    ensures Earliest(cs, b, t, cfg, val, route)
  {
    hide Timetable, Odds;
    forall legs | Timetable(cs, b, t, cfg, val, legs)
      ensures Listed(cs, legs) && route.arrival <= ArrivalOf(cs, t, legs)
    {
      ListedTimetable(cs, b, t, cfg, val, legs);
      var l, l' := ln(Floored(Odds(cs, route.hops))), ln(Floored(Odds(cs, HopsOf(legs))));
      assert 0.0 * l == 0.0 && 0.0 * l' == 0.0;
      LighterIsLess(cfg.w1, route.arrival - t, ArrivalOf(cs, t, legs) - t);
    }
  }

  lemma ListedTimetable(cs: seq<Contact>, b: Bundle, t: real, cfg: Config, val: FloatReading, legs: seq<Leg>)
    requires Timetable(cs, b, t, cfg, val, legs)
    ensures Listed(cs, legs)
  {
  }

  /** Only the odds count: a most confident route, down to the floor. */
  lemma OddsAloneMeanSurest(cs: seq<Contact>, b: Bundle, t: real, cfg: Config, ln: real -> real,
                            val: FloatReading, route: Route)
    requires LeastOutlay(cs, b, t, cfg, ln, val, route) && cfg.w1 == 0.0 && cfg.w2 > 0.0 && Logarithm(ln)
    ensures Surest(cs, b, t, cfg, val, route)
  {
    hide Timetable, Odds, Logarithm;
    forall legs | Timetable(cs, b, t, cfg, val, legs)
      ensures Listed(cs, legs) && Floored(Odds(cs, route.hops)) >= Floored(Odds(cs, HopsOf(legs)))
    {
      ListedTimetable(cs, b, t, cfg, val, legs);
      var x, y := Floored(Odds(cs, route.hops)), Floored(Odds(cs, HopsOf(legs)));
      assert 0.0 * (route.arrival - t) == 0.0 && 0.0 * (ArrivalOf(cs, t, legs) - t) == 0.0;
      LighterIsLess(cfg.w2, ln(y), ln(x));
      LogOrder(ln, x, y);
    }
  }

  /** A route whose hops were simulated forward is a timetable of the bundle. */
  lemma RouteDelivers(cs: seq<Contact>, b: Bundle, t: real, cfg: Config, ln: real -> real, val: FloatReading,
                      route: Route)
    requires Logarithm(ln) && IsRoute(QueryOf(cs, b, t, cfg, ln, val), route)
    ensures Delivers(cs, b, t, cfg, val, route)
  {
    hide Walk, Journey, ArriveAt, Logarithm, Cost, VisitedOf;
    var q := QueryOf(cs, b, t, cfg, ln, val);
    WalkIsJourney(cs, b, t, cfg, ln, val, route.hops);
    var legs := Prompt(q, route.hops);
    assert Timetable(cs, b, t, cfg, val, legs);
  }

  /** From the second hop on a route meets no node twice, and never the one it starts from. */
  predicate Simple(cs: seq<Contact>, start: NodeId, hops: Path) {
    && (forall i :: 0 <= i < |hops| ==> hops[i] < |cs|)
    && (forall i :: 1 <= i < |hops| ==> cs[hops[i]].to != start)
    && forall i, j :: 1 <= i < j < |hops| ==> cs[hops[i]].to != cs[hops[j]].to
  }

  lemma RecordedSimple(q: Query, route: Route)
    requires RecordsWalk(q, route)
    ensures Simple(q.cs, q.curr, route.hops)
  {
    hide Cost, ArriveAt, Walk;
    var p :| FeasibleRoute(q, p) && NoDup(VisitedOf(q, p)) && |p| <= q.cfg.maxHops + 1 && route == Candidate(q, p);
    VisitedStart(q, p);
    forall i | 1 <= i < |p| ensures VisitedOf(q, p)[i] == q.cs[p[i]].to {
      VisitedAt(q, p, i);
    }
  }

  /** What is found arrives while the bundle is alive, within the hop limit. */
  lemma FoundAlive(cs: seq<Contact>, b: Bundle, t: real, cfg: Config, ln: real -> real, val: FloatReading, route: Route)
    requires RecordsWalk(QueryOf(cs, b, t, cfg, ln, val), route)
    ensures IsAlive(b, route.arrival, val) && 0 < |route.hops| <= cfg.maxHops + 1 && |route.hops| <= 10
  {
    hide Carried, TxDuration, BerFeasible, Cost, VisitedOf;
    var q := QueryOf(cs, b, t, cfg, ln, val);
    var p :| FeasibleRoute(q, p) && NoDup(VisitedOf(q, p)) && |p| <= q.cfg.maxHops + 1 && route == Candidate(q, p);
    LastHopAlive(q, p);
  }

  lemma LastHopAlive(q: Query, p: Path)
    requires InPlan(q, p) && p != [] && Walk(q, p)
    ensures ArriveAt(q, p) < q.tExp
  {
    hide Carried, TxDuration, BerFeasible, CapUse;
    assert Usable(q, p[|p| - 1], ArriveAt(q, p[..|p| - 1]));
  }
}
