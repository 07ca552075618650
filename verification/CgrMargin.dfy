/** Why optimality needs a zero weight on the capacity margin: the search prunes by the margin of
    the last hop only, while the cost charges the smallest margin along the route. */
module CgrMargin {
  import opened Bundles
  import opened Contacts
  import opened CgrModel
  import opened CgrFrontier
  import opened CgrSearch
  import opened CgrTheorems

  /** Whatever the search may answer within the regime is a cheapest route. */
  ghost predicate AlwaysCheapest(cfg: Config, ln: real -> real) {
    forall q: Query, res: SearchResult, tr: Trail {:trigger Answers(q, res, tr)} ::
      q.cfg == cfg && q.ln == ln && Regime(q) && Answers(q, res, tr) && res.Found? ==> CheapestRoute(q, res.route)
  }

  /** With non-negative delay and confidence weights, the route found is always a cheapest one
      exactly when the margin weight is zero. */
  lemma OptimalIffMarginFree(cfg: Config, ln: real -> real)
    requires cfg.w1 >= 0.0 && cfg.w2 >= 0.0 && Monotone(ln) && cfg.maxHops >= 2 && cfg.maxRoutes >= 1
    ensures AlwaysCheapest(cfg, ln) <==> cfg.w3 == 0.0
  {
    hide Explored, CheapestRoute, Answers;
    if cfg.w3 == 0.0 {
      forall q: Query, res: SearchResult, tr: Trail |
        q.cfg == cfg && q.ln == ln && Regime(q) && Answers(q, res, tr) && res.Found?
        ensures CheapestRoute(q, res.route)
      {
        SelectionCorrect(q, res, tr);
      }
    } else {
      var q := TrapQuery(cfg, ln);
      TrapRegime(q);
      var res, tr := TrapAnswer(q);
      TrapMisleads(q, res, tr);
    }
  }

  // ---- A plan that misleads the search ----

  /** Two first hops alike but for the bytes already spent on them, and one last hop. */
  function TrapPlan(spent0: real, spent1: real): seq<Contact> {
    [Contact(1, 2, 0.0, 10.0, 100.0, 0.0, 1.0, 0.0, Up, spent0, 0.0),
     Contact(1, 2, 0.0, 10.0, 100.0, 0.0, 1.0, 0.0, Up, spent1, 0.0),
     Contact(2, 3, 0.0, 10.0, 100.0, 0.0, 1.0, 0.0, Up, 0.0, 0.0)]
  }

  /** The first hop the cost dislikes comes first in the plan. */
  function TrapQuery(cfg: Config, ln: real -> real): Query {
    Query(if cfg.w3 > 0.0 then TrapPlan(800.0, 0.0) else TrapPlan(0.0, 800.0), 100, 1, 3, 1000.0, 0.0, cfg, ln)
  }

  ghost predicate Trap(q: Query) {
    q == TrapQuery(q.cfg, q.ln) && q.cfg.w3 != 0.0 && q.cfg.maxHops >= 2 && q.cfg.maxRoutes >= 1
  }

  /** Smallest margin of the route over first hop `j`. */
  function TrapMargin(q: Query, j: nat): real { if (j == 0) == (q.cfg.w3 > 0.0) then 100.0 else 800.0 }

  lemma TrapHop(q: Query, j: nat, at: real)
    requires Trap(q) && j < 3 && 0.0 <= at <= 1.0
    ensures |q.cs| == 3 && Usable(q, j, at) && HopArrival(q, j, at) == at + 1.0
    ensures HopMargin(q, j, at) == (if j < 2 && TrapMargin(q, j) == 100.0 then 100.0 else 900.0) - 100.0 * at
    ensures q.cs[j].conf == 1.0 && q.cs[j].frm == (if j == 2 then 2 else 1) && q.cs[j].to == (if j == 2 then 3 else 2)
  {
  }

  lemma TrapWalks(q: Query, j: nat)
    requires Trap(q) && j < 2
    ensures FeasibleRoute(q, [j, 2]) && FirstHopOf(q, j)
    ensures ArriveAt(q, [j]) == 1.0 && ConfOf(q, [j]) == 1.0
    ensures VisitedOf(q, [j]) == [1] && VisitedOf(q, [j, 2]) == [1, 3]
    ensures ArriveAt(q, [j, 2]) == 2.0 && ConfOf(q, [j, 2]) == 1.0 && MinMargin(q, [j, 2]) == TrapMargin(q, j)
    ensures SigOf(q, [j, 2]) == Sig(2.0, 1.0, 800.0)
  {
    hide Usable, HopArrival, HopMargin;
    var none: Path := [];
    TrapHop(q, j, 0.0);
    TrapHop(q, 2, 1.0);
    Extend(q, none, j);
    assert none + [j] == [j] && [j] + [2] == [j, 2];
    Extend(q, [j], 2);
    assert [j][..0] == none && [j, 2][..1] == [j];
    assert MinMargin(q, [j]) == if TrapMargin(q, j) == 100.0 then 100.0 else 900.0;
  }

  ghost predicate FirstHopOf(q: Query, j: nat) {
    InPlan(q, [j]) && Walk(q, [j]) && End(q, [j]) == 2
  }

  /** The two routes are the only accepted walks to the destination. */
  lemma OnlyTwoRoutes(q: Query, X: set<Path>, p: Path)
    requires Trap(q) && AllAccepted(q, X) && p in X && InPlan(q, p) && End(q, p) == q.dst
    ensures p == [0, 2] || p == [1, 2]
  {
    hide Usable, HopArrival;
    assert Accepted(q, p, X);
    var n := |p| - 1;
    assert p[n] == 2 && q.cs[2].frm == End(q, p[..n]) == 2;
    var before := p[..n];
    assert before != [] && Walk(q, before);
    var k, first := before[n - 1], before[..n - 1];
    assert k < 2 && q.cs[k].frm == 1;
    assert q.cs[k].frm == End(q, first);
    assert first == [];
    assert p == [p[0], 2];
  }

  lemma TrapRegime(q: Query)
    requires Trap(q)
    ensures Regime(q) && CertainPlan(q) && Others(q) == {2, 3}
  {
    assert q.cs[0].to == 2 && q.cs[2].to == 3;
    forall x | x in Others(q) ensures x in {2, 3} {
    }
    forall n: NodeId ensures |Into(q, n)| <= FRONTIER_MAX {
      SubsetSize(Into(q, n), {0, 1, 2});
    }
    SubsetSize(Others(q), {2, 3});
  }

  lemma {:induction false} SubsetSize<T>(a: set<T>, b: set<T>)
    requires a <= b
    ensures |a| <= |b|
  {
    if a == {} {
    } else {
      var x :| x in a;
      SubsetSize(a - {x}, b - {x});
    }
  }

  lemma DearerCost(q: Query)
    requires Trap(q)
    ensures CostFrom(q, 2.0, 1.0, TrapMargin(q, 0)) > CostFrom(q, 2.0, 1.0, TrapMargin(q, 1))
  {
    if q.cfg.w3 > 0.0 {
      assert q.cfg.w3 * 700.0 > 0.0;
    } else {
      assert q.cfg.w3 * 700.0 < 0.0;
    }
  }

  /** Every answer the search may give on the trap is the dearer of the two routes. */
  lemma TrapMisleads(q: Query, res: SearchResult, tr: Trail)
    requires Trap(q) && Answers(q, res, tr)
    ensures res.Found? && !CheapestRoute(q, res.route)
  {
    hide Usable, HopArrival, SigOf, MinMargin, ConfOf, ArriveAt, CostFrom, Walk, VisitedOf, Candidate;
    TrapRegime(q);
    TrapWalks(q, 0);
    TrapWalks(q, 1);
    CertainPlanAnswers(q, res, tr);
    EarlierSeedDelivers(q, tr);
    assert res.Found?;
    var p :| p in tr.accepted && InPlan(q, p) && End(q, p) == q.dst && res.route == Candidate(q, p);
    OnlyTwoRoutes(q, tr.accepted, p);
    assert p == [0, 2] by { LaterSeedPruned(q, tr); }
    CandidateIsWhole(q, tr, p);
    DearerCost(q);
    assert FeasibleRoute(q, [1, 2]);
  }

  lemma EarlierSeedDelivers(q: Query, tr: Trail)
    requires Trap(q) && Explored(q, tr)
    ensures [0, 2] in tr.accepted
  {
    hide HopArrival, HopConf, HopMargin, ConfOf, ArriveAt, Walk;
    var X := Upto(tr.accepted, 0);
    TrapWalks(q, 0);
    TrapHop(q, 0, 0.0);
    TrapHop(q, 2, 1.0);
    assert SeedTaken(q, tr.accepted, 0);
    assert [0] in X && Progress(q, X, []);
    assert Settled(q, X, [], [0]);
    assert q.cs[2].frm == End(q, [0]);
    assert Handled(q, X, [0], 2);
    var p :| p in X && InPlan(q, p) && End(q, p) == 3;
    OnlyTwoRoutes(q, tr.accepted, p);
  }

  lemma LaterSeedPruned(q: Query, tr: Trail)
    requires Trap(q) && Explored(q, tr) && [0, 2] in tr.accepted
    ensures [1, 2] !in tr.accepted
  {
    hide SigOf, Walk, ArriveAt, ConfOf, Progress;
    TrapRegime(q);
    TrapWalks(q, 0);
    TrapWalks(q, 1);
    assert Rivals(q, [0, 2], [1, 2]);
  }

  /** One answer: both seeds taken, only the earlier one carried on to the destination. */
  lemma TrapAnswer(q: Query) returns (res: SearchResult, tr: Trail)
    requires Trap(q)
    ensures Answers(q, res, tr) && res.Found?
  {
    hide Usable, HopArrival, Candidate, SigOf, MinMargin, ConfOf, ArriveAt, Walk, VisitedOf;
    var X: set<Path> := {[0], [1], [0, 2]};
    tr := Trail(X, multiset{Candidate(q, [0, 2])});
    res := Found(Candidate(q, [0, 2]));
    TrapWalks(q, 0);
    TrapWalks(q, 1);
    TrapAccepted(q, X);
    TrapStaged(q, X);
    TrapTabled(q, X);
  }

  lemma TrapAccepted(q: Query, X: set<Path>)
    requires Trap(q) && X == {[0], [1], [0, 2]}
    ensures AllAccepted(q, X)
  {
    hide Usable, HopArrival, ConfOf, ArriveAt, Walk, VisitedOf;
    TrapWalks(q, 0);
    TrapWalks(q, 1);
    assert [0, 2][..1] == [0];
  }

  lemma TrapTabled(q: Query, X: set<Path>)
    requires Trap(q) && X == {[0], [1], [0, 2]}
    ensures Tabled(q, X)
  {
    hide Usable, HopArrival, ConfOf, ArriveAt, Walk, VisitedOf;
    TrapWalks(q, 0);
    TrapRegime(q);
    var sig := Sig(2.0, 1.0, 800.0);
    var table := [NodeFrontier(3, [sig])];
    assert Witnessed(q, X, 3, table[0].sigs[0]);
    assert Dominates(sig, sig) && Covered(table[0].sigs, sig) && CoveredAt(table, 3, sig);
    forall p | p in X && Filed(q, p) ensures CoveredAt(table, End(q, p), SigOf(q, p)) {
      assert p == [0, 2];
    }
    assert TableOk(q, table, X) && AllCovered(q, table, X);
  }

  lemma TrapStaged(q: Query, X: set<Path>)
    requires Trap(q) && X == {[0], [1], [0, 2]}
    ensures Staged(q, X) && Progress(q, X, [])
    ensures forall j: nat {:trigger SeedTaken(q, X, j)} :: j < |q.cs| ==> SeedTaken(q, X, j)
  {
    hide Progress, Usable, SigOf;
    TrapHop(q, 0, 0.0);
    assert Upto(X, 0) == {[0], [0, 2]} && Upto(X, 1) == X;
    TrapProgress(q, Upto(X, 0));
    TrapProgress(q, X);
  }

  lemma TrapProgress(q: Query, X: set<Path>)
    requires Trap(q) && [0, 2] in X && X <= {[0], [1], [0, 2]}
    ensures Progress(q, X, [])
  {
    hide Usable, HopArrival, ConfOf, ArriveAt, Walk, VisitedOf, HopConf;
    TrapHop(q, 2, 1.0);
    forall r | r in X ensures Settled(q, X, [], r) {
      if r == [0, 2] {
        TrapWalks(q, 0);
      } else {
        TrapExpanded(q, X, r[0]);
      }
    }
  }

  lemma TrapExpanded(q: Query, X: set<Path>, i: nat)
    requires Trap(q) && [0, 2] in X && i < 2
    ensures InPlan(q, [i]) && Expanded(q, X, [i])
  {
    hide Usable, HopArrival, ConfOf, ArriveAt, Walk, VisitedOf, HopConf;
    TrapHop(q, 2, 1.0);
    TrapWalks(q, 0);
    TrapWalks(q, i);
    TrapLast(q, i);
    assert [i] + [2] == [i, 2];
    MatchedBy(q, X, [0, 2], [i, 2]);
  }

  lemma TrapLast(q: Query, i: nat)
    requires Trap(q) && i < 2
    ensures InPlan(q, [i]) && HopArrival(q, 2, ArriveAt(q, [i])) == 2.0 && HopConf(q, 2, ConfOf(q, [i])) == 1.0
    ensures forall j: nat {:trigger q.cs[j]} :: j < |q.cs| && q.cs[j].frm == End(q, [i]) ==> j == 2
  {
    hide HopArrival, ConfOf, ArriveAt;
    TrapWalks(q, i);
    TrapHop(q, 2, 1.0);
  }
}
