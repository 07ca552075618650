/** What the contact-graph search searches: walks over the contact plan, simulated forward in
    time, their signatures and costs, and the facts about them the search relies on. */
module CgrModel {
  import opened Bundles
  import opened Contacts

  const ROUTE_MAX_HOPS: nat := 10
  const BEAM_MAX: nat := 64
  const STACK_MAX: nat := 11
  const CONF_FLOOR: real := 0.000000000001
  const MARGIN_TOP: real := 1000000000000000000000000000000.0

  datatype Config = Config(maxHops: nat, maxRoutes: nat, w1: real, w2: real, w3: real, berAware: bool)

  /** One search: the plan, the bundle's size, position, destination and expiry, the time, the
      configuration, and the logarithm the cost and the bit-error test are computed with. */
  datatype Query = Query(
    cs: seq<Contact>, size: U16, curr: NodeId, dst: NodeId, tExp: real, t: real,
    cfg: Config, ln: real -> real)

  function QueryOf(cs: seq<Contact>, b: Bundle, t: real, cfg: Config, ln: real -> real, val: FloatReading): Query {
    Query(cs, b.size, b.curr, b.dst, TExp(b, val), t, cfg, ln)
  }

  /** A walk is the sequence of its contacts' plan indices. */
  type Path = seq<nat>

  predicate InPlan(q: Query, p: Path) { forall i :: 0 <= i < |p| ==> p[i] < |q.cs| }

  /** Physical plans: confidences in [0,1], no negative delay, counters never negative. */
  ghost predicate PlanOk(q: Query) {
    forall j {:trigger q.cs[j]} :: 0 <= j < |q.cs| ==>
      && 0.0 <= q.cs[j].conf <= 1.0 && 0.0 <= q.cs[j].owlt
      && 0.0 <= q.cs[j].bytesUsed && 0.0 <= q.cs[j].reserved
  }

  /** At least even odds that `size` bytes cross without a bit error, in log space. */
  predicate BerFeasible(c: Contact, size: real, ln: real -> real) {
    if c.ber <= 0.0 then true
    else
      var p := 1.0 - c.ber;
      if p <= 0.0 then false else 8.0 * size * ln(p) >= ln(0.5)
  }

  /** Contact `j` can carry the bundle when it becomes available at time `at`. */
  predicate Usable(q: Query, j: nat, at: real)
    requires j < |q.cs|
  {
    var c, size := q.cs[j], q.size as real;
    var start := EarliestStart(c, at);
    && c.status != Down
    && (IsActive(c, at) || IsFuture(c, at))
    && start < c.tEnd
    && start + TxDuration(c, size) <= c.tEnd
    && ArrivalAtReceiver(c, size, start) < q.tExp
    && CapUse(c, start) >= size
    && (q.cfg.berAware ==> BerFeasible(c, size, q.ln))
  }

  function HopArrival(q: Query, j: nat, at: real): real
    requires j < |q.cs|
  {
    ArrivalAtReceiver(q.cs[j], q.size as real, EarliestStart(q.cs[j], at))
  }

  function Times(x: real, y: real): real { x * y }

  function HopConf(q: Query, j: nat, conf: real): real
    requires j < |q.cs|
  {
    Times(conf, q.cs[j].conf)
  }

  function HopMargin(q: Query, j: nat, at: real): real
    requires j < |q.cs|
  {
    CapUse(q.cs[j], EarliestStart(q.cs[j], at)) - q.size as real
  }

  // ---- Walks, by their last hop ----

  function End(q: Query, p: Path): NodeId
    requires InPlan(q, p)
  {
    if p == [] then q.curr else q.cs[p[|p| - 1]].to
  }

  function ArriveAt(q: Query, p: Path): real
    requires InPlan(q, p)
  {
    if p == [] then q.t else HopArrival(q, p[|p| - 1], ArriveAt(q, p[..|p| - 1]))
  }

  function ConfOf(q: Query, p: Path): real
    requires InPlan(q, p)
  {
    if p == [] then 1.0 else HopConf(q, p[|p| - 1], ConfOf(q, p[..|p| - 1]))
  }

  /** Smallest capacity margin over the hops, each at its simulated start. */
  function MinMargin(q: Query, p: Path): real
    requires InPlan(q, p)
  {
    if p == [] then MARGIN_TOP
    else
      var m, rest := HopMargin(q, p[|p| - 1], ArriveAt(q, p[..|p| - 1])), MinMargin(q, p[..|p| - 1]);
      if m < rest then m else rest
  }

  /** Nodes the search marks visited along `p`: the source and every receiver from hop two on. */
  function VisitedOf(q: Query, p: Path): seq<NodeId>
    requires InPlan(q, p)
    ensures |VisitedOf(q, p)| == if p == [] then 1 else |p|
  {
    if |p| <= 1 then [q.curr] else VisitedOf(q, p[..|p| - 1]) + [q.cs[p[|p| - 1]].to]
  }

  /** A chain of contacts from the source, each usable when the bundle gets there. */
  ghost predicate Walk(q: Query, p: Path)
    requires InPlan(q, p)
  {
    p == [] ||
    (var i := |p| - 1;
     && Walk(q, p[..i])
     && q.cs[p[i]].frm == End(q, p[..i])
     && Usable(q, p[i], ArriveAt(q, p[..i])))
  }

  /** A feasible route for the query. */
  ghost predicate FeasibleRoute(q: Query, p: Path) {
    p != [] && InPlan(q, p) && Walk(q, p) && End(q, p) == q.dst
  }

  predicate NoDup<T(==)>(s: seq<T>) { forall i, j :: 0 <= i < j < |s| ==> s[i] != s[j] }

  // ---- Signatures and costs ----

  datatype Sig = Sig(tArrive: real, conf: real, margin: real)

  predicate Dominates(a: Sig, b: Sig) {
    a.tArrive <= b.tArrive && a.conf >= b.conf && a.margin >= b.margin
  }

  function SigOf(q: Query, p: Path): Sig
    requires InPlan(q, p) && p != []
  {
    Sig(ArriveAt(q, p), ConfOf(q, p), HopMargin(q, p[|p| - 1], ArriveAt(q, p[..|p| - 1])))
  }

  datatype Route = Route(hops: Path, cost: real, arrival: real)

  function CostFrom(q: Query, arrival: real, conf: real, margin: real): real {
    q.cfg.w1 * (arrival - q.t) - q.cfg.w2 * q.ln(if conf > CONF_FLOOR then conf else CONF_FLOOR)
    - q.cfg.w3 * margin
  }

  /** Cost of the recorded hops, given the arrival time of the walk they record. */
  function Cost(q: Query, hops: Path, arrival: real): real
    requires InPlan(q, hops)
  {
    CostFrom(q, arrival, ConfOf(q, hops), MinMargin(q, hops))
  }

  /** The record keeps at most ten hops. */
  function Kept(p: Path): Path { if |p| <= ROUTE_MAX_HOPS then p else p[..ROUTE_MAX_HOPS] }

  function Candidate(q: Query, p: Path): Route
    requires InPlan(q, p)
  {
    Route(Kept(p), Cost(q, Kept(p), ArriveAt(q, p)), ArriveAt(q, p))
  }

  /** Non-decreasing where a logarithm is defined. */
  ghost predicate Monotone(f: real -> real) { forall x, y :: 0.0 < x <= y ==> f(x) <= f(y) }

  // ---- Exchange: arriving earlier keeps every later contact usable ----

  lemma TxDurationNonNegative(c: Contact, size: real)
    requires size >= 0.0
    ensures TxDuration(c, size) >= 0.0
  {
    if c.rate > 0.0 {
      assert Carried(size / c.rate, c.rate) == size;
      CarriedPositive(size / c.rate, c.rate);
    }
  }

  lemma HopTakesTime(q: Query, j: nat, at: real)
    requires j < |q.cs| && PlanOk(q)
    ensures HopArrival(q, j, at) >= at
  {
    TxDurationNonNegative(q.cs[j], q.size as real);
  }

  /** The time-dependent exchange: a contact usable on a late arrival is usable on an earlier
      one, and is then received no later and with no less capacity to spare. */
  lemma Exchange(q: Query, j: nat, early: real, late: real)
    requires j < |q.cs| && PlanOk(q) && early <= late && Usable(q, j, late)
    ensures Usable(q, j, early)
    ensures HopArrival(q, j, early) <= HopArrival(q, j, late)
    ensures HopMargin(q, j, early) >= HopMargin(q, j, late)
  {
    hide Carried, TxDuration;
    var c := q.cs[j];
    var s0, s1 := EarliestStart(c, early), EarliestStart(c, late);
    CarriedPositive(c.rate, c.tEnd - s1);
    CarriedOrder(c.rate, c.tEnd - s1, c.tEnd - s0);
  }

  lemma Extend(q: Query, p: Path, j: nat)
    requires InPlan(q, p) && j < |q.cs|
    ensures InPlan(q, p + [j]) && (p + [j])[..|p|] == p
    ensures End(q, p + [j]) == q.cs[j].to
    ensures ArriveAt(q, p + [j]) == HopArrival(q, j, ArriveAt(q, p))
    ensures ConfOf(q, p + [j]) == HopConf(q, j, ConfOf(q, p))
    ensures SigOf(q, p + [j]) == Sig(ArriveAt(q, p + [j]), ConfOf(q, p + [j]), HopMargin(q, j, ArriveAt(q, p)))
    ensures p != [] ==> VisitedOf(q, p + [j]) == VisitedOf(q, p) + [q.cs[j].to]
    ensures Walk(q, p + [j]) <==> Walk(q, p) && q.cs[j].frm == End(q, p) && Usable(q, j, ArriveAt(q, p))
  {
    assert (p + [j])[..|p|] == p;
  }

  lemma {:induction false} ConfInUnit(q: Query, p: Path)
    requires InPlan(q, p) && PlanOk(q)
    ensures 0.0 <= ConfOf(q, p) <= 1.0
  {
    if p == [] {
    } else {
      ConfInUnit(q, p[..|p| - 1]);
      HopConfShrinks(q, p[|p| - 1], ConfOf(q, p[..|p| - 1]), ConfOf(q, p[..|p| - 1]));
    }
  }

  /** A hop keeps the order of confidences and never raises one. */
  lemma HopConfShrinks(q: Query, j: nat, f: real, g: real)
    requires j < |q.cs| && PlanOk(q) && 0.0 <= f <= g
    ensures 0.0 <= HopConf(q, j, f) <= HopConf(q, j, g) <= g
  {
    hide Times;
    UnitFactor(f, g, q.cs[j].conf);
  }

  lemma UnitFactor(f: real, g: real, k: real)
    requires 0.0 <= f <= g && 0.0 <= k <= 1.0
    ensures 0.0 <= Times(f, k) <= Times(g, k) <= g
  {
    assert (g - f) * k >= 0.0 && g * (1.0 - k) >= 0.0;
  }

  /** Along a walk time only advances and confidence only falls. */
  lemma {:induction false} PrefixIsBetter(q: Query, p: Path, k: nat)
    requires InPlan(q, p) && PlanOk(q) && k <= |p|
    ensures ArriveAt(q, p[..k]) <= ArriveAt(q, p)
    ensures ConfOf(q, p[..k]) >= ConfOf(q, p)
    decreases |p| - k
  {
    if k == |p| {
      assert p[..k] == p;
    } else {
      PrefixIsBetter(q, p, k + 1);
      assert p[..k + 1] == p[..k] + [p[k]];
      Extend(q, p[..k], p[k]);
      HopTakesTime(q, p[k], ArriveAt(q, p[..k]));
      ConfInUnit(q, p[..k]);
      HopConfShrinks(q, p[k], ConfOf(q, p[..k]), ConfOf(q, p[..k]));
    }
  }

  lemma {:induction false} VisitedAt(q: Query, p: Path, i: nat)
    requires InPlan(q, p) && 1 <= i < |p|
    ensures VisitedOf(q, p)[i] == q.cs[p[i]].to
  {
    if i == |p| - 1 {
    } else {
      VisitedAt(q, p[..|p| - 1], i);
    }
  }

  lemma {:induction false} VisitedStart(q: Query, p: Path)
    requires InPlan(q, p)
    ensures VisitedOf(q, p)[0] == q.curr
  {
    if |p| <= 1 {
    } else {
      VisitedStart(q, p[..|p| - 1]);
    }
  }

  // ---- When a set of accepted walks covers every feasible route ----

  /** Walks longer than this are not extended: the hop limit, or the search stack's depth. */
  function Limit(q: Query): nat { if q.cfg.maxHops < STACK_MAX then q.cfg.maxHops else STACK_MAX }

  /** Some accepted walk reaches `n` no later than `a` with confidence at least `f`. */
  ghost predicate Reaches(q: Query, X: set<Path>, n: NodeId, a: real, f: real) {
    exists p :: p in X && InPlan(q, p) && End(q, p) == n && ArriveAt(q, p) <= a && ConfOf(q, p) >= f
  }

  /** Accepted walks are feasible, revisit no marked node, have accepted prefixes, do not pass
      through the destination and stay within the hop limit. */
  ghost predicate Accepted(q: Query, p: Path, X: set<Path>) {
    && p != [] && InPlan(q, p) && Walk(q, p) && NoDup(VisitedOf(q, p)) && |p| <= Limit(q) + 1
    && (|p| >= 2 ==> p[..|p| - 1] in X && End(q, p[..|p| - 1]) != q.dst)
  }

  ghost predicate AllAccepted(q: Query, X: set<Path>) {
    forall p {:trigger Accepted(q, p, X)} :: p in X ==> Accepted(q, p, X)
  }

  /** Every usable contact leaving the source was taken. */
  ghost predicate SeedTaken(q: Query, X: set<Path>, j: nat)
    requires j < |q.cs|
  {
    q.cs[j].frm == q.curr && Usable(q, j, q.t) ==> [j] in X
  }

  /** Some accepted walk of two hops or more reaches the end of `p` with a signature as good. */
  ghost predicate Matched(q: Query, X: set<Path>, p: Path) {
    p != [] && InPlan(q, p) &&
    exists r :: r in X && |r| >= 2 && InPlan(q, r) && End(q, r) == End(q, p) && Dominates(SigOf(q, r), SigOf(q, p))
  }

  /** Contact `j` may extend `p`: usable when `p` gets there, its receiver not yet visited. */
  predicate Eligible(q: Query, p: Path, j: nat)
    requires InPlan(q, p) && j < |q.cs|
  {
    Usable(q, j, ArriveAt(q, p)) && q.cs[j].to !in VisitedOf(q, p)
  }

  /** Contact `j` was considered at the end of `p`: if it was eligible, the extended walk was
      accepted or some accepted walk is as good. */
  ghost predicate Handled(q: Query, X: set<Path>, p: Path, j: nat)
    requires InPlan(q, p) && j < |q.cs|
  {
    Eligible(q, p, j) ==> Matched(q, X, p + [j])
  }

  ghost predicate Expanded(q: Query, X: set<Path>, p: Path)
    requires InPlan(q, p)
  {
    forall j: nat {:trigger q.cs[j]} :: j < |q.cs| && q.cs[j].frm == End(q, p) ==> Handled(q, X, p, j)
  }

  ghost predicate Finished(q: Query, X: set<Path>, p: Path) {
    InPlan(q, p) && (End(q, p) == q.dst || Expanded(q, X, p))
  }

  /** The search's final state: all seeds taken, every accepted walk short of the destination expanded. */
  ghost predicate Saturated(q: Query, X: set<Path>) {
    && AllAccepted(q, X)
    && (forall j: nat {:trigger SeedTaken(q, X, j)} :: j < |q.cs| ==> SeedTaken(q, X, j))
    && (forall p {:trigger Finished(q, X, p)} :: p in X ==> Finished(q, X, p))
  }

  lemma {:induction false} PrefixAccepted(q: Query, X: set<Path>, p: Path, k: nat)
    requires AllAccepted(q, X) && p in X && 1 <= k <= |p|
    ensures p[..k] in X
    ensures k < |p| ==> InPlan(q, p[..k]) && End(q, p[..k]) != q.dst
    decreases |p| - k
  {
    assert Accepted(q, p, X);
    if k == |p| {
      assert p[..k] == p;
    } else if k == |p| - 1 {
    } else {
      PrefixAccepted(q, X, p[..|p| - 1], k);
      assert p[..|p| - 1][..k] == p[..k];
    }
  }

  lemma ReachesAlso(q: Query, X: set<Path>, p: Path, n: NodeId, a: real, f: real)
    requires p in X && InPlan(q, p) && End(q, p) == n && ArriveAt(q, p) <= a && ConfOf(q, p) >= f
    ensures Reaches(q, X, n, a, f)
  {
  }

  lemma MatchedReaches(q: Query, X: set<Path>, p: Path, j: nat)
    requires InPlan(q, p) && j < |q.cs| && Matched(q, X, p + [j])
    ensures Reaches(q, X, q.cs[j].to, HopArrival(q, j, ArriveAt(q, p)), HopConf(q, j, ConfOf(q, p)))
  {
    hide Usable, HopArrival, HopConf, HopMargin, Walk, VisitedOf;
    Extend(q, p, j);
    var r :| r in X && |r| >= 2 && InPlan(q, r) && End(q, r) == q.cs[j].to && Dominates(SigOf(q, r), SigOf(q, p + [j]));
    ReachesAlso(q, X, r, q.cs[j].to, ArriveAt(q, p + [j]), ConfOf(q, p + [j]));
  }

  lemma MatchedBy(q: Query, X: set<Path>, r: Path, p: Path)
    requires p != [] && InPlan(q, p) && r in X && |r| >= 2 && InPlan(q, r) && End(q, r) == End(q, p)
    requires Dominates(SigOf(q, r), SigOf(q, p))
    ensures Matched(q, X, p)
  {
  }

  lemma ReachesWeaker(q: Query, X: set<Path>, n: NodeId, a: real, f: real, a': real, f': real)
    requires Reaches(q, X, n, a, f) && a <= a' && f' <= f
    ensures Reaches(q, X, n, a', f')
  {
    var p :| p in X && InPlan(q, p) && End(q, p) == n && ArriveAt(q, p) <= a && ConfOf(q, p) >= f;
    ReachesAlso(q, X, p, n, a', f');
  }

  /** A node already passed by an accepted walk was reached by a prefix, earlier and surer. */
  lemma Revisit(q: Query, X: set<Path>, p: Path, n: NodeId)
    requires PlanOk(q) && AllAccepted(q, X) && p in X && InPlan(q, p)
    requires n != q.curr && n in VisitedOf(q, p)
    ensures Reaches(q, X, n, ArriveAt(q, p), ConfOf(q, p))
  {
    hide Usable, HopArrival, HopConf;
    var i :| 0 <= i < |VisitedOf(q, p)| && VisitedOf(q, p)[i] == n;
    VisitedStart(q, p);
    assert Accepted(q, p, X);
    VisitedAt(q, p, i);
    PrefixAccepted(q, X, p, i + 1);
    PrefixIsBetter(q, p, i + 1);
    ReachesAlso(q, X, p[..i + 1], n, ArriveAt(q, p), ConfOf(q, p));
  }

  /** One step of the covering argument: what reaches a node also reaches, through any usable
      contact, the next one; a node already passed was reached earlier on the way. */
  lemma CoverStep(q: Query, X: set<Path>, p: Path, j: nat, a: real, f: real)
    requires PlanOk(q) && Saturated(q, X) && p in X && InPlan(q, p) && j < |q.cs|
    requires End(q, p) == q.cs[j].frm && End(q, p) != q.dst && q.cs[j].to != q.curr
    requires ArriveAt(q, p) <= a && ConfOf(q, p) >= f >= 0.0 && Usable(q, j, a)
    ensures Reaches(q, X, q.cs[j].to, HopArrival(q, j, a), HopConf(q, j, f))
  {
    hide Usable, HopArrival, HopConf;
    var to, a0, f0 := q.cs[j].to, ArriveAt(q, p), ConfOf(q, p);
    Exchange(q, j, a0, a);
    HopConfShrinks(q, j, f, f0);
    if to in VisitedOf(q, p) {
      Revisit(q, X, p, to);
      HopTakesTime(q, j, a0);
      ReachesWeaker(q, X, to, a0, f0, HopArrival(q, j, a), HopConf(q, j, f));
    } else {
      assert Finished(q, X, p);
      assert Handled(q, X, p, j);
      MatchedReaches(q, X, p, j);
      ReachesWeaker(q, X, to, HopArrival(q, j, a0), HopConf(q, j, f0), HopArrival(q, j, a), HopConf(q, j, f));
    }
  }

  lemma SeedStep(q: Query, X: set<Path>, j: nat, a: real, f: real)
    requires PlanOk(q) && Saturated(q, X) && j < |q.cs| && q.cs[j].frm == q.curr
    requires q.t <= a && 0.0 <= f <= 1.0 && Usable(q, j, a)
    ensures Reaches(q, X, q.cs[j].to, HopArrival(q, j, a), HopConf(q, j, f))
  {
    hide Usable, HopArrival, HopConf;
    var none: Path := [];
    Exchange(q, j, q.t, a);
    assert SeedTaken(q, X, j);
    Extend(q, none, j);
    assert none + [j] == [j];
    HopConfShrinks(q, j, f, 1.0);
    ReachesAlso(q, X, [j], q.cs[j].to, HopArrival(q, j, a), HopConf(q, j, f));
  }

  /** Every walk, revisits and all, is matched at its end by an accepted walk, unless it ends
      back at the source or the destination was matched before. */
  lemma {:induction false} CoverWalk(q: Query, X: set<Path>, r: Path)
    requires PlanOk(q) && Saturated(q, X) && q.curr != q.dst
    requires InPlan(q, r) && Walk(q, r)
    ensures || End(q, r) == q.curr
            || Reaches(q, X, q.dst, ArriveAt(q, r), ConfOf(q, r))
            || Reaches(q, X, End(q, r), ArriveAt(q, r), ConfOf(q, r))
  {
    hide Usable, HopArrival, HopConf;
    if r == [] {
    } else {
      var pre, j := r[..|r| - 1], r[|r| - 1];
      CoverWalk(q, X, pre);
      var a, f := ArriveAt(q, pre), ConfOf(q, pre);
      ConfInUnit(q, pre);
      if q.cs[j].to == q.curr {
      } else if Reaches(q, X, q.dst, a, f) {
        HopTakesTime(q, j, a);
        HopConfShrinks(q, j, f, f);
        ReachesWeaker(q, X, q.dst, a, f, HopArrival(q, j, a), HopConf(q, j, f));
      } else if End(q, pre) == q.curr {
        PrefixIsBetter(q, pre, 0);
        SeedStep(q, X, j, a, f);
      } else {
        var p :| p in X && InPlan(q, p) && End(q, p) == End(q, pre) && ArriveAt(q, p) <= a && ConfOf(q, p) >= f;
        CoverStep(q, X, p, j, a, f);
      }
    }
  }

  /** In a saturated search, every feasible route is matched by an accepted walk to the
      destination that arrives no later with no less confidence. */
  lemma CoverRoute(q: Query, X: set<Path>, r: Path)
    requires PlanOk(q) && Saturated(q, X) && q.curr != q.dst && FeasibleRoute(q, r)
    ensures Reaches(q, X, q.dst, ArriveAt(q, r), ConfOf(q, r))
  {
    CoverWalk(q, X, r);
  }
}
