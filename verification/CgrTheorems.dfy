/** What a route selection means: soundness, completeness and optimality against every
    feasible route, and when the bounded tables suffice. */
module CgrTheorems {
  import opened Bundles
  import opened Contacts
  import opened CgrModel
  import opened CgrFrontier
  import opened CgrSearch

  /** The plan fits the search's tables and hop limit. */
  ghost predicate Fits(q: Query) { |Others(q)| <= TABLE_MAX && |Others(q)| <= q.cfg.maxHops }

  /** The regime of the completeness results: a plan that fits, with physical contacts, and a
      bundle that is not already where it is going. */
  ghost predicate Regime(q: Query) { Fits(q) && PlanOk(q) && q.curr != q.dst }

  /** Delay and confidence weigh in, the capacity margin does not. */
  ghost predicate MarginFree(cfg: Config, ln: real -> real) {
    cfg.w1 >= 0.0 && cfg.w2 >= 0.0 && cfg.w3 == 0.0 && Monotone(ln)
  }

  /** No weight is negative. */
  ghost predicate Weighed(cfg: Config, ln: real -> real) {
    cfg.w1 >= 0.0 && cfg.w2 >= 0.0 && cfg.w3 >= 0.0 && Monotone(ln)
  }

  /** `route` records a feasible walk within the hop limit that meets no marked node twice; more
      than ten hops are cut. */
  ghost predicate RecordsWalk(q: Query, route: Route) {
    exists p ::
      FeasibleRoute(q, p) && NoDup(VisitedOf(q, p)) && |p| <= q.cfg.maxHops + 1 && route == Candidate(q, p)
  }

  /** `route` is itself a feasible route, with its true arrival time and cost. */
  ghost predicate IsRoute(q: Query, route: Route) {
    && FeasibleRoute(q, route.hops) && NoDup(VisitedOf(q, route.hops))
    && route.arrival == ArriveAt(q, route.hops) && route.cost == Cost(q, route.hops, route.arrival)
  }

  ghost predicate CheapestRoute(q: Query, route: Route) {
    forall r :: FeasibleRoute(q, r) ==> route.cost <= Cost(q, r, ArriveAt(q, r))
  }

  /** No feasible route is cheaper by more than what its own margin is worth. */
  ghost predicate NearCheapest(q: Query, route: Route) {
    forall r :: FeasibleRoute(q, r) ==> route.cost <= Cost(q, r, ArriveAt(q, r)) + Times(q.cfg.w3, MinMargin(q, r))
  }

  // ---- Walks are short ----

  lemma {:induction false} AcceptedVisits(q: Query, X: set<Path>, p: Path, i: nat)
    requires AllAccepted(q, X) && p in X && 1 <= i < |p| && InPlan(q, p)
    ensures |VisitedOf(q, p)| == |p| && VisitedOf(q, p)[i] == q.cs[p[i]].to && q.cs[p[i]].to in Others(q)
    ensures i < |p| - 1 || End(q, p) != q.dst ==> VisitedOf(q, p)[i] != q.dst
  {
    assert Accepted(q, p, X);
    VisitedAt(q, p, i);
    VisitedStart(q, p);
    PrefixAccepted(q, X, p, i + 1);
    assert p[..i + 1][i] == p[i];
    if i == |p| - 1 {
      assert p[..i + 1] == p;
    }
  }

  /** An accepted walk has at most one hop more than there are receivers; one stopping short of
      a destination that is itself a receiver has at most as many hops as receivers. */
  lemma WalksAreShort(q: Query, X: set<Path>, p: Path)
    requires AllAccepted(q, X) && p in X && InPlan(q, p)
    ensures |p| <= |Others(q)| + 1
    ensures q.dst in Others(q) && End(q, p) != q.dst ==> |p| <= |Others(q)|
  {
    assert Accepted(q, p, X);
    hide Usable;
    var later := VisitedOf(q, p)[1..];
    forall i | 0 <= i < |later|
      ensures later[i] in Others(q)
      ensures End(q, p) != q.dst ==> later[i] != q.dst
    {
      AcceptedVisits(q, X, p, i + 1);
    }
    DistinctCount(later, Others(q));
    if q.dst in Others(q) && End(q, p) != q.dst {
      DistinctCount(later + [q.dst], Others(q));
    }
  }

  /** Nine nodes are reached only where nine nodes receive. */
  lemma SpreadNeedsReceivers(q: Query, X: set<Path>)
    requires AllAccepted(q, X) && Spread(q, X)
    ensures |Others(q)| > TABLE_MAX
  {
    var ns :| SpreadBy(q, X, ns);
    forall i | 0 <= i < |ns| ensures ns[i] in Others(q) {
      assert EndsAt(q, X, ns[i]);
      var p :| p in X && |p| >= 2 && InPlan(q, p) && End(q, p) == ns[i];
      AcceptedVisits(q, X, p, |p| - 1);
    }
    DistinctCount(ns, Others(q));
  }

  lemma ExploredIsSaturated(q: Query, tr: Trail)
    requires Explored(q, tr) && Fits(q) && q.dst in Others(q)
    ensures Saturated(q, tr.accepted)
  {
    var empty: seq<Frame> := [];
    assert Progress(q, tr.accepted, empty);
    forall p | p in tr.accepted ensures Finished(q, tr.accepted, p) {
      assert Settled(q, tr.accepted, empty, p);
      if End(q, p) != q.dst {
        WalksAreShort(q, tr.accepted, p);
      }
    }
  }

  lemma DestinationReceives(q: Query, r: Path)
    requires FeasibleRoute(q, r) && q.curr != q.dst
    ensures q.dst in Others(q)
  {
  }

  // ---- The main statements ----

  /** Completeness: whatever feasible route exists, an accepted walk reaches the destination no
      later and with no less confidence. */
  lemma EveryRouteMatched(q: Query, tr: Trail, r: Path)
    requires Explored(q, tr) && Regime(q) && FeasibleRoute(q, r)
    ensures Reaches(q, tr.accepted, q.dst, ArriveAt(q, r), ConfOf(q, r))
  {
    DestinationReceives(q, r);
    ExploredIsSaturated(q, tr);
    CoverRoute(q, tr.accepted, r);
  }

  lemma CostOrder(q: Query, a: real, f: real, m: real, a': real, f': real, m': real)
    requires MarginFree(q.cfg, q.ln) && a <= a' && f >= f'
    ensures CostFrom(q, a, f, m) <= CostFrom(q, a', f', m')
  {
    var l := q.ln(if f > CONF_FLOOR then f else CONF_FLOOR);
    var l' := q.ln(if f' > CONF_FLOOR then f' else CONF_FLOOR);
    assert l' <= l;
    assert q.cfg.w1 * (a' - a) >= 0.0 && q.cfg.w2 * (l - l') >= 0.0;
  }

  lemma CandidateIsWhole(q: Query, tr: Trail, p: Path)
    requires AllAccepted(q, tr.accepted) && p in tr.accepted && InPlan(q, p) && |Others(q)| <= TABLE_MAX
    ensures Kept(p) == p && Candidate(q, p) == Route(p, Cost(q, p, ArriveAt(q, p)), ArriveAt(q, p))
  {
    WalksAreShort(q, tr.accepted, p);
  }

  /** Optimality over every feasible route when the margin carries no weight. */
  lemma BestIsOptimal(q: Query, tr: Trail, route: Route)
    requires Explored(q, tr) && BestOf(q, tr, route) && Regime(q) && MarginFree(q.cfg, q.ln)
    ensures CheapestRoute(q, route)
  {
    forall r | FeasibleRoute(q, r) ensures route.cost <= Cost(q, r, ArriveAt(q, r)) {
      EveryRouteMatched(q, tr, r);
      var p :| p in tr.accepted && InPlan(q, p) && End(q, p) == q.dst
        && ArriveAt(q, p) <= ArriveAt(q, r) && ConfOf(q, p) >= ConfOf(q, r);
      CandidateIsWhole(q, tr, p);
      CostOrder(q, ArriveAt(q, p), ConfOf(q, p), MinMargin(q, p), ArriveAt(q, r), ConfOf(q, r), MinMargin(q, r));
    }
  }

  lemma {:induction false} MarginNotNegative(q: Query, p: Path)
    requires InPlan(q, p) && Walk(q, p)
    ensures MinMargin(q, p) >= 0.0
  {
    hide HopArrival;
    if p == [] {
    } else {
      MarginNotNegative(q, p[..|p| - 1]);
    }
  }

  lemma CostWithoutMargin(q: Query, a: real, f: real, m: real, a': real, f': real, m': real)
    requires Weighed(q.cfg, q.ln) && a <= a' && f >= f' && m >= 0.0
    ensures CostFrom(q, a, f, m) <= CostFrom(q, a', f', m') + Times(q.cfg.w3, m')
  {
    var l := q.ln(if f > CONF_FLOOR then f else CONF_FLOOR);
    var l' := q.ln(if f' > CONF_FLOOR then f' else CONF_FLOOR);
    assert l' <= l;
    assert q.cfg.w1 * (a' - a) >= 0.0 && q.cfg.w2 * (l - l') >= 0.0 && q.cfg.w3 * m >= 0.0;
  }

  /** Whatever the margin weighs, the route picked costs no more than any feasible route and the
      worth of that route's margin; the default weights included. */
  lemma BestIsNearOptimal(q: Query, tr: Trail, route: Route)
    requires Explored(q, tr) && BestOf(q, tr, route) && Regime(q) && Weighed(q.cfg, q.ln)
    ensures NearCheapest(q, route)
  {
    hide CostFrom, Times, Explored;
    forall r | FeasibleRoute(q, r) ensures route.cost <= Cost(q, r, ArriveAt(q, r)) + Times(q.cfg.w3, MinMargin(q, r)) {
      EveryRouteMatched(q, tr, r);
      ExploredAccepts(q, tr);
      var p :| p in tr.accepted && InPlan(q, p) && End(q, p) == q.dst
        && ArriveAt(q, p) <= ArriveAt(q, r) && ConfOf(q, p) >= ConfOf(q, r);
      assert Accepted(q, p, tr.accepted);
      CandidateIsWhole(q, tr, p);
      MarginNotNegative(q, p);
      CostWithoutMargin(q, ArriveAt(q, p), ConfOf(q, p), MinMargin(q, p),
                        ArriveAt(q, r), ConfOf(q, r), MinMargin(q, r));
    }
  }

  lemma BestIsSound(q: Query, tr: Trail, route: Route)
    requires Explored(q, tr) && BestOf(q, tr, route)
    ensures RecordsWalk(q, route)
    ensures |Others(q)| <= TABLE_MAX ==> IsRoute(q, route)
    ensures q.curr == q.dst ==> |route.hops| == 1
  {
    hide Usable, Cost, ArriveAt;
    var p :| p in tr.accepted && InPlan(q, p) && End(q, p) == q.dst && route == Candidate(q, p);
    assert Accepted(q, p, tr.accepted);
    assert FeasibleRoute(q, p);
    if |Others(q)| <= TABLE_MAX {
      CandidateIsWhole(q, tr, p);
    }
    if |p| >= 2 {
      AcceptedVisits(q, tr.accepted, p, |p| - 1);
    }
  }

  /** A bundle that is already where it is going is routed only over a contact back to its node. */
  lemma AtHomeNeedsLoop(q: Query, res: SearchResult, tr: Trail)
    requires Answers(q, res, tr) && q.curr == q.dst && !res.Stopped?
    ensures res.Found? <==> exists j: nat :: j < |q.cs| && q.cs[j].frm == q.cs[j].to == q.curr && Usable(q, j, q.t)
  {
    hide Usable, Cost, ArriveAt, Progress, Staged, Tabled;
    if res.Found? {
      BestIsSound(q, tr, res.route);
      var p :| p in tr.accepted && InPlan(q, p) && End(q, p) == q.dst && res.route == Candidate(q, p);
      assert Accepted(q, p, tr.accepted);
      assert |p| == 1 && p[..0] == [];
      StartsAt(q, p);
      assert q.cs[p[0]].frm == q.cs[p[0]].to == q.curr && Usable(q, p[0], q.t);
    } else {
      forall j: nat | j < |q.cs| && q.cs[j].frm == q.cs[j].to == q.curr && Usable(q, j, q.t) ensures false {
        SeedReached(q, tr, j);
      }
    }
  }

  lemma SeedReached(q: Query, tr: Trail, j: nat)
    requires Explored(q, tr) && j < |q.cs| && q.cs[j].frm == q.curr && Usable(q, j, q.t)
    ensures [j] in tr.accepted && InPlan(q, [j]) && End(q, [j]) == q.cs[j].to
  {
    assert SeedTaken(q, tr.accepted, j);
  }

  lemma StartsAt(q: Query, p: Path)
    requires |p| == 1 && InPlan(q, p) && Walk(q, p)
    ensures q.cs[p[0]].frm == q.curr && Usable(q, p[0], q.t)
  {
    assert p[..0] == [];
  }

  lemma SelectionCorrect(q: Query, res: SearchResult, tr: Trail)
    requires Answers(q, res, tr)
    ensures res.Found? ==> RecordsWalk(q, res.route)
    ensures res.Found? && |Others(q)| <= TABLE_MAX ==> IsRoute(q, res.route)
    ensures !res.Stopped? && Regime(q) ==> (res.NoRoute? <==> forall r :: !FeasibleRoute(q, r))
    ensures res.Found? && Regime(q) && MarginFree(q.cfg, q.ln) ==> CheapestRoute(q, res.route)
    ensures res.Found? && Regime(q) && Weighed(q.cfg, q.ln) ==> NearCheapest(q, res.route)
    ensures |Others(q)| <= TABLE_MAX ==> res != Stopped(Unpruned)
  {
    hide Explored, BestOf, CheapestRoute, NearCheapest, MarginFree, Weighed, IsRoute, FeasibleRoute, Spread;
    if res.Found? {
      BestIsSound(q, tr, res.route);
      if Regime(q) && Weighed(q.cfg, q.ln) {
        BestIsNearOptimal(q, tr, res.route);
      }
      if Regime(q) && MarginFree(q.cfg, q.ln) {
        BestIsOptimal(q, tr, res.route);
      }
    } else if res.NoRoute? && Regime(q) {
      forall r | FeasibleRoute(q, r) ensures false {
        EveryRouteMatched(q, tr, r);
      }
    } else if res == Stopped(Unpruned) {
      SpreadNeedsReceivers(q, tr.accepted);
    }
  }

  // ---- What the frontier table holds ----

  /** Contact `j` was weighed at the end of accepted walk `p`: it extended it, or was pruned. */
  ghost predicate OfferedBy(q: Query, X: set<Path>, p: Path, j: nat) {
    && p in X && p != [] && InPlan(q, p) && End(q, p) != q.dst
    && j < |q.cs| && q.cs[j].frm == End(q, p) && Eligible(q, p, j) && (|p| <= Limit(q) || p + [j] in X)
  }

  /** `s` was offered to the frontier of `n`. */
  ghost predicate OfferedAt(q: Query, X: set<Path>, n: NodeId, s: Sig) {
    exists p, j :: OfferedBy(q, X, p, j) && OfferIs(q, p, j, n, s)
  }

  ghost predicate OfferIs(q: Query, p: Path, j: nat, n: NodeId, s: Sig) {
    j < |q.cs| && q.cs[j].to == n && InPlan(q, p + [j]) && SigOf(q, p + [j]) == s
  }

  lemma WitnessOffered(q: Query, X: set<Path>, n: NodeId, s: Sig)
    requires AllAccepted(q, X) && Witnessed(q, X, n, s)
    ensures OfferedAt(q, X, n, s)
  {
    hide Usable, SigOf, ArriveAt;
    var r :| r in X && |r| >= 2 && InPlan(q, r) && End(q, r) == n && SigOf(q, r) == s;
    assert Accepted(q, r, X);
    var p, j := r[..|r| - 1], r[|r| - 1];
    assert r == p + [j];
    NewReceiver(q, p, j);
    assert OfferedBy(q, X, p, j) && OfferIs(q, p, j, n, s);
  }

  lemma NewReceiver(q: Query, p: Path, j: nat)
    requires p != [] && InPlan(q, p) && j < |q.cs| && NoDup(VisitedOf(q, p + [j]))
    ensures q.cs[j].to !in VisitedOf(q, p)
  {
    hide Usable, ArriveAt;
    Extend(q, p, j);
    var v, v' := VisitedOf(q, p), VisitedOf(q, p + [j]);
    assert v'[|v|] == q.cs[j].to && forall i :: 0 <= i < |v| ==> v'[i] == v[i];
  }

  /** In a finished search every offer was covered by an accepted walk, and so by the table. */
  lemma OfferCovered(q: Query, tr: Trail, table: Table, p: Path, j: nat)
    requires Explored(q, tr) && |Others(q)| <= TABLE_MAX
    requires TableOk(q, table, tr.accepted) && AllCovered(q, table, tr.accepted) && OfferedBy(q, tr.accepted, p, j)
    ensures InPlan(q, p + [j]) && CoveredAt(table, q.cs[j].to, SigOf(q, p + [j]))
  {
    hide Usable, SigOf, ArriveAt, CoveredAt, Eligible, VisitedOf, TableOk;
    var X, empty: seq<Frame> := tr.accepted, [];
    EndOf(q, p, j);
    if p + [j] !in X {
      assert Settled(q, X, empty, p);
      assert Handled(q, X, p, j);
      var r :| r in X && |r| >= 2 && InPlan(q, r) && End(q, r) == q.cs[j].to
        && Dominates(SigOf(q, r), SigOf(q, p + [j]));
      assert Filed(q, r);
      CoveredDown(table, q.cs[j].to, SigOf(q, r), SigOf(q, p + [j]));
    } else {
      assert Filed(q, p + [j]);
    }
  }

  lemma EndOf(q: Query, p: Path, j: nat)
    requires InPlan(q, p) && j < |q.cs|
    ensures InPlan(q, p + [j]) && End(q, p + [j]) == q.cs[j].to
  {
  }

  /** In a finished search each frontier holds exactly the signatures ever offered at its node
      that no other offer dominates. */
  lemma EntryIsParetoSet(q: Query, tr: Trail, table: Table, a: nat)
    requires Explored(q, tr) && |Others(q)| <= TABLE_MAX && a < |table|
    requires TableOk(q, table, tr.accepted) && AllCovered(q, table, tr.accepted)
    ensures var X, e := tr.accepted, table[a];
      forall s :: s in e.sigs <==>
        OfferedAt(q, X, e.node, s) && forall o :: OfferedAt(q, X, e.node, o) && Dominates(o, s) ==> o == s
  {
    hide Explored, OfferedBy, OfferIs, SigOf;
    var X, e := tr.accepted, table[a];
    assert EntryOk(q, X, e);
    forall s | s in e.sigs ensures OfferedAt(q, X, e.node, s) {
      var k :| 0 <= k < |e.sigs| && e.sigs[k] == s;
      assert Witnessed(q, X, e.node, e.sigs[k]);
      WitnessOffered(q, X, e.node, s) by { ExploredAccepts(q, tr); }
    }
    forall o | OfferedAt(q, X, e.node, o) ensures Covered(e.sigs, o) {
      OfferInEntry(q, tr, table, a, o);
    }
    hide OfferedAt;
    MaximalOffers(e.sigs, o => OfferedAt(q, X, e.node, o));
  }

  lemma ExploredAccepts(q: Query, tr: Trail)
    requires Explored(q, tr)
    ensures AllAccepted(q, tr.accepted)
  {
  }

  lemma OfferInEntry(q: Query, tr: Trail, table: Table, a: nat, o: Sig)
    requires Explored(q, tr) && |Others(q)| <= TABLE_MAX && a < |table|
    requires TableOk(q, table, tr.accepted) && AllCovered(q, table, tr.accepted)
    requires OfferedAt(q, tr.accepted, table[a].node, o)
    ensures Covered(table[a].sigs, o)
  {
    hide Explored, OfferedBy, SigOf, AllCovered, Covered, EntryOk;
    var p, j :| OfferedBy(q, tr.accepted, p, j) && OfferIs(q, p, j, table[a].node, o);
    OfferCovered(q, tr, table, p, j);
    var b :| 0 <= b < |table| && table[b].node == table[a].node && Covered(table[b].sigs, o);
    assert a == b;
  }

  /** However the offers at a node are ordered, its frontier is what offering them one by one to
      an unbounded frontier gives. */
  lemma EntryIsFrontier(q: Query, tr: Trail, table: Table, a: nat, offered: seq<Sig>)
    requires Explored(q, tr) && |Others(q)| <= TABLE_MAX && a < |table|
    requires TableOk(q, table, tr.accepted) && AllCovered(q, table, tr.accepted)
    requires forall s :: s in offered <==> OfferedAt(q, tr.accepted, table[a].node, s)
    ensures forall s :: s in table[a].sigs <==> s in Frontier(offered)
  {
    hide Explored, OfferedAt, TableOk, AllCovered, Dominates;
    EntryIsParetoSet(q, tr, table, a);
    FrontierIsParetoSet(offered);
  }

  // ---- When no frontier overflows ----

  /** Contacts received by `n`. */
  ghost function Into(q: Query, n: NodeId): set<nat> { set j | 0 <= j < |q.cs| && q.cs[j].to == n }

  /** Two accepted walks over the same last contact with the same confidence are comparable: the
      one that gets there first is received first, with no less capacity left. */
  lemma SameLastHopComparable(q: Query, X: set<Path>, p: Path, r: Path)
    requires AllAccepted(q, X) && PlanOk(q)
    requires p in X && r in X && InPlan(q, p) && InPlan(q, r) && |p| >= 2 && |r| >= 2
    requires p[|p| - 1] == r[|r| - 1] && ConfOf(q, p) == ConfOf(q, r)
    ensures Dominates(SigOf(q, p), SigOf(q, r)) || Dominates(SigOf(q, r), SigOf(q, p))
  {
    hide Usable, HopArrival, HopMargin;
    var j, a, c := p[|p| - 1], ArriveAt(q, p[..|p| - 1]), ArriveAt(q, r[..|r| - 1]);
    assert Accepted(q, p, X) && Accepted(q, r, X);
    if a <= c {
      Exchange(q, j, a, c);
    } else {
      Exchange(q, j, c, a);
    }
  }

  /** `key` tells accepted walks apart as far as the last contact and the confidence go. */
  ghost predicate Keyed<K(!new)>(q: Query, X: set<Path>, key: Path -> K) {
    forall p, r | p in X && r in X && InPlan(q, p) && InPlan(q, r) && |p| >= 2 && |r| >= 2 ::
      key(p) == key(r) ==> p[|p| - 1] == r[|r| - 1] && ConfOf(q, p) == ConfOf(q, r)
  }

  /** With at most eight keys at every node no frontier ever needs a ninth entry. */
  lemma NeverCrowded<K(!new)>(q: Query, X: set<Path>, key: Path -> K, room: NodeId -> set<K>)
    requires AllAccepted(q, X) && PlanOk(q) && Keyed(q, X, key)
    requires forall p :: p in X && |p| >= 2 && InPlan(q, p) ==> key(p) in room(End(q, p))
    requires forall n :: |room(n)| <= FRONTIER_MAX
    ensures !Crowded(q, X)
  {
    forall n, sigs | CrowdedBy(q, X, n, sigs) ensures false {
      var keys := KeysOf(q, X, key, n, sigs, |sigs|);
      forall i | 0 <= i < |keys| ensures keys[i] in room(n) {
        assert Behind(q, X, key, n, sigs[i], keys[i]);
      }
      DistinctCount(keys, room(n));
    }
  }

  /** Distinct keys behind the first `m` of an antichain of signatures at `n`. */
  lemma {:induction false} KeysOf<K(!new)>(q: Query, X: set<Path>, key: Path -> K, n: NodeId, sigs: seq<Sig>, m: nat)
    returns (keys: seq<K>)
    requires AllAccepted(q, X) && PlanOk(q) && Keyed(q, X, key) && CrowdedBy(q, X, n, sigs) && m <= |sigs|
    ensures |keys| == m && NoDup(keys) && forall i :: 0 <= i < m ==> Behind(q, X, key, n, sigs[i], keys[i])
  {
    hide SigOf, PlanOk, AllAccepted, Keyed;
    if m == 0 {
      keys := [];
    } else {
      var before := KeysOf(q, X, key, n, sigs, m - 1);
      assert Witnessed(q, X, n, sigs[m - 1]);
      var p :| p in X && |p| >= 2 && InPlan(q, p) && End(q, p) == n && SigOf(q, p) == sigs[m - 1];
      keys := before + [key(p)];
      forall i | 0 <= i < m - 1 ensures keys[i] != key(p) {
        assert Behind(q, X, key, n, sigs[i], before[i]);
        var r :| r in X && |r| >= 2 && InPlan(q, r) && End(q, r) == n && SigOf(q, r) == sigs[i] && key(r) == before[i];
        if before[i] == key(p) {
          SameKeyComparable(q, X, key, p, r);
        }
      }
      assert Behind(q, X, key, n, sigs[m - 1], key(p));
    }
  }

  lemma SameKeyComparable<K(!new)>(q: Query, X: set<Path>, key: Path -> K, p: Path, r: Path)
    requires AllAccepted(q, X) && PlanOk(q) && Keyed(q, X, key)
    requires p in X && r in X && InPlan(q, p) && InPlan(q, r) && |p| >= 2 && |r| >= 2 && key(p) == key(r)
    ensures Dominates(SigOf(q, p), SigOf(q, r)) || Dominates(SigOf(q, r), SigOf(q, p))
  {
    hide SigOf, PlanOk, AllAccepted, Dominates;
    SameLastHopComparable(q, X, p, r);
  }

  ghost predicate Behind<K(!new)>(q: Query, X: set<Path>, key: Path -> K, n: NodeId, s: Sig, k: K) {
    exists p :: p in X && |p| >= 2 && InPlan(q, p) && End(q, p) == n && SigOf(q, p) == s && key(p) == k
  }

  lemma {:induction false} CertainConf(q: Query, p: Path)
    requires InPlan(q, p) && forall j {:trigger q.cs[j]} :: 0 <= j < |q.cs| ==> q.cs[j].conf == 1.0
    ensures ConfOf(q, p) == 1.0
  {
    if p == [] {
    } else {
      CertainConf(q, p[..|p| - 1]);
    }
  }

  /** Physical contacts that are all certain, at most eight into any node, at most eight receivers. */
  ghost predicate CertainPlan(q: Query) {
    && PlanOk(q) && |Others(q)| <= TABLE_MAX
    && (forall j {:trigger q.cs[j]} :: 0 <= j < |q.cs| ==> q.cs[j].conf == 1.0)
    && (forall n :: |Into(q, n)| <= FRONTIER_MAX)
  }

  lemma CertainNeverCrowded(q: Query, X: set<Path>)
    requires AllAccepted(q, X) && PlanOk(q)
    requires forall j {:trigger q.cs[j]} :: 0 <= j < |q.cs| ==> q.cs[j].conf == 1.0
    requires forall n :: |Into(q, n)| <= FRONTIER_MAX
    ensures !Crowded(q, X)
  {
    hide AllAccepted, PlanOk;
    forall p | p in X && InPlan(q, p) ensures ConfOf(q, p) == 1.0 {
      CertainConf(q, p);
    }
    NeverCrowded(q, X, LastContact, n => Into(q, n));
  }

  function LastContact(p: Path): nat { if p == [] then 0 else p[|p| - 1] }

  /** Such a plan never stops the search: it always answers. */
  lemma CertainPlanAnswers(q: Query, res: SearchResult, tr: Trail)
    requires Answers(q, res, tr) && CertainPlan(q)
    ensures !res.Stopped?
  {
    if res == Stopped(Outcome.Overflow) {
      CertainNeverCrowded(q, tr.accepted);
    } else if res == Stopped(Unpruned) {
      SpreadNeedsReceivers(q, tr.accepted);
    }
  }
}
