/** Route selection as a node asks for it, on its contact plan. */
module CgrSelect {
  import opened Bundles
  import opened Contacts
  import opened CgrModel
  import opened CgrSearch
  import opened CgrTheorems
  import opened CgrTrees
  import opened CgrWeights
  import opened Timetables

  /** `res` is an answer the search may give. */
  ghost predicate Answered(q: Query, res: SearchResult) { exists tr :: Answers(q, res, tr) }

  /** Plans known beforehand to be answered: certain contacts within the tables, or a tree of
      nodes with one confidence per pair. */
  ghost predicate Answerable(q: Query) { CertainPlan(q) || exists T, width :: TreePlan(q, T, width) }

  lemma AnswerableIsAnswered(q: Query, res: SearchResult)
    requires Answerable(q) && Answered(q, res)
    ensures !res.Stopped?
  {
    hide Answers, CertainPlan, TreePlan;
    var tr :| Answers(q, res, tr);
    if CertainPlan(q) {
      CertainPlanAnswers(q, res, tr);
    } else {
      var T, width :| TreePlan(q, T, width);
      TreePlanAnswers(q, T, width, res, tr);
    }
  }

  lemma AnsweredCorrectly(q: Query, res: SearchResult)
    requires Answered(q, res)
    ensures res.Found? ==> RecordsWalk(q, res.route)
    ensures res.Found? && |Others(q)| <= TABLE_MAX ==> IsRoute(q, res.route)
    ensures !res.Stopped? && Regime(q) ==> (res.NoRoute? <==> forall r :: !FeasibleRoute(q, r))
    ensures res.Found? && Regime(q) && MarginFree(q.cfg, q.ln) ==> CheapestRoute(q, res.route)
    ensures res.Found? && Regime(q) && Weighed(q.cfg, q.ln) ==> NearCheapest(q, res.route)
  {
    hide Answers, RecordsWalk, IsRoute, CheapestRoute, NearCheapest, FeasibleRoute, MarginFree, Weighed, Fits, PlanOk;
    var tr :| Answers(q, res, tr);
    SelectionCorrect(q, res, tr);
  }

  /** What an answer says about the bundle's timetables: what is found is received alive, within the
      hop limit, and is a timetable; within the regime nothing is found only when there is none, and
      without a weight on the margin no timetable is better as delay and odds are weighed. */
  ghost predicate Selected(cs: seq<Contact>, b: Bundle, t: real, cfg: Config, ln: real -> real, val: FloatReading,
                           res: SearchResult) {
    var q := QueryOf(cs, b, t, cfg, ln, val);
    && (res.Found? ==>
          && IsAlive(b, res.route.arrival, val) && 0 < |res.route.hops| <= cfg.maxHops + 1 && |res.route.hops| <= 10
          && (|Others(q)| <= 8 ==> Delivers(cs, b, t, cfg, val, res.route)))
    && (Regime(q) && res.NoRoute? ==> forall legs :: !Timetable(cs, b, t, cfg, val, legs))
    && (Regime(q) && res.Found? && cfg.w1 >= 0.0 && cfg.w2 >= 0.0 && cfg.w3 == 0.0 ==>
          && LeastOutlay(cs, b, t, cfg, ln, val, res.route)
          && (cfg.w1 > 0.0 && cfg.w2 == 0.0 ==> Earliest(cs, b, t, cfg, val, res.route))
          && (cfg.w1 == 0.0 && cfg.w2 > 0.0 ==> Surest(cs, b, t, cfg, val, res.route)))
  }

  lemma NoneMeansNoTimetable(cs: seq<Contact>, b: Bundle, t: real, cfg: Config, ln: real -> real, val: FloatReading)
    requires Logarithm(ln) && PlanOk(QueryOf(cs, b, t, cfg, ln, val))
    requires forall r :: !FeasibleRoute(QueryOf(cs, b, t, cfg, ln, val), r)
    ensures forall legs :: !Timetable(cs, b, t, cfg, val, legs)
  {
    hide Timetable, FeasibleRoute, PlanOk, Logarithm;
    forall legs | Timetable(cs, b, t, cfg, val, legs) ensures false {
      TimetableIsRoute(cs, b, t, cfg, ln, val, legs);
    }
  }

  lemma AnsweredInTime(cs: seq<Contact>, b: Bundle, t: real, cfg: Config, ln: real -> real, val: FloatReading,
                       res: SearchResult)
    requires Logarithm(ln) && Answered(QueryOf(cs, b, t, cfg, ln, val), res)
    ensures Selected(cs, b, t, cfg, ln, val, res)
  {
    hide Answered, RecordsWalk, IsRoute, CheapestRoute, NearCheapest, FeasibleRoute, Fits, PlanOk, Logarithm, Timetable,
      Delivers, LeastOutlay, Earliest, Surest, Others, Monotone, IsAlive;
    var q := QueryOf(cs, b, t, cfg, ln, val);
    AnsweredCorrectly(q, res);
    LogarithmIsMonotone(ln);
    if res.Found? {
      FoundAlive(cs, b, t, cfg, ln, val, res.route);
      if |Others(q)| <= 8 {
        RouteDelivers(cs, b, t, cfg, ln, val, res.route);
      }
      if Regime(q) && cfg.w1 >= 0.0 && cfg.w2 >= 0.0 && cfg.w3 == 0.0 {
        assert |Others(q)| <= TABLE_MAX by { RegimeFits(q); }
        CheapestHasLeastOutlay(cs, b, t, cfg, ln, val, res.route);
        if cfg.w1 > 0.0 && cfg.w2 == 0.0 {
          DelayAloneMeansEarliest(cs, b, t, cfg, ln, val, res.route);
        }
        if cfg.w1 == 0.0 && cfg.w2 > 0.0 {
          OddsAloneMeanSurest(cs, b, t, cfg, ln, val, res.route);
        }
      }
    } else if res.NoRoute? && Regime(q) {
      NoneMeansNoTimetable(cs, b, t, cfg, ln, val);
    }
  }

  lemma RegimeFits(q: Query)
    requires Regime(q)
    ensures |Others(q)| <= TABLE_MAX
  {
  }

  /** What is answered within the regime is a route exactly when the bundle has a timetable. */
  lemma FoundIffTimetable(cs: seq<Contact>, b: Bundle, t: real, cfg: Config, ln: real -> real, val: FloatReading,
                          res: SearchResult)
    requires Logarithm(ln) && Answered(QueryOf(cs, b, t, cfg, ln, val), res)
    requires Regime(QueryOf(cs, b, t, cfg, ln, val)) && !res.Stopped?
    ensures res.Found? <==> exists legs :: Timetable(cs, b, t, cfg, val, legs)
  {
    hide Answered, Regime, Logarithm, Timetable, LeastOutlay, Earliest, Surest, IsAlive, Others;
    AnsweredInTime(cs, b, t, cfg, ln, val, res);
    RegimeFits(QueryOf(cs, b, t, cfg, ln, val));
  }

  /** Route selection for a bundle at its current node. */
  method SelectRoute(plan: ContactPlan, b: Bundle, t: real, cfg: Config, ln: real -> real, val: FloatReading)
    returns (res: SearchResult)
    requires plan.Valid() && cfg.maxRoutes >= 1
    ensures Answered(QueryOf(plan.Contents(), b, t, cfg, ln, val), res)
    // A plan that fits is always answered, and reported routeless exactly when it is.
    ensures var q := QueryOf(plan.Contents(), b, t, cfg, ln, val);
      (Answerable(q) ==> !res.Stopped?)
      && (Answerable(q) && Regime(q) ==> (res.NoRoute? <==> forall r :: !FeasibleRoute(q, r)))
    // What is found is received while the bundle is alive, within the hop limit.
    ensures res.Found? ==> IsAlive(b, res.route.arrival, val) && 0 < |res.route.hops| <= cfg.maxHops + 1
    ensures res.Found? ==> Simple(plan.Contents(), b.curr, res.route.hops)
    // It is feasible, hop by hop, and cheapest as far as the margin allows.
    ensures var q := QueryOf(plan.Contents(), b, t, cfg, ln, val);
      res.Found? ==>
        && RecordsWalk(q, res.route) && (|Others(q)| <= TABLE_MAX ==> IsRoute(q, res.route))
        && (Regime(q) && Weighed(cfg, ln) ==> NearCheapest(q, res.route))
        && (Regime(q) && MarginFree(cfg, ln) ==> CheapestRoute(q, res.route))
    // Against every timetable of the bundle, whatever departures it waits for.
    ensures Logarithm(ln) ==> Selected(plan.Contents(), b, t, cfg, ln, val, res)
    ensures var q := QueryOf(plan.Contents(), b, t, cfg, ln, val);
      Answerable(q) && Regime(q) && Logarithm(ln) ==>
        (res.Found? <==> exists legs :: Timetable(plan.Contents(), b, t, cfg, val, legs))
  {
    hide Answers, RecordsWalk, IsRoute, CheapestRoute, NearCheapest, FeasibleRoute, MarginFree, Weighed,
      Answerable, Regime, Selected, Logarithm, Timetable, Simple;
    ghost var q, tr := QueryOf(plan.Contents(), b, t, cfg, ln, val), Trail({}, multiset{});
    res, tr := Search(QueryOf(plan.contacts[..plan.count], b, t, cfg, ln, val));
    assert Answers(q, res, tr);
    AnsweredCorrectly(q, res);
    if Answerable(q) {
      AnswerableIsAnswered(q, res);
    }
    if res.Found? {
      FoundAlive(plan.Contents(), b, t, cfg, ln, val, res.route);
      RecordedSimple(q, res.route);
    }
    if Logarithm(ln) {
      AnsweredInTime(plan.Contents(), b, t, cfg, ln, val, res);
      if Answerable(q) && Regime(q) {
        FoundIffTimetable(plan.Contents(), b, t, cfg, ln, val, res);
      }
    }
  }
}
