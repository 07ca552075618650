/** The K-best beam: the cheapest routes found so far. */
module CgrBeam {
  import opened CgrModel

  /** `beam` holds the cheapest `cap` of the routes pushed so far, or all of them if fewer. */
  ghost predicate KBest(beam: seq<Route>, cap: nat, pushed: multiset<Route>) {
    && |beam| == (if |pushed| < cap then |pushed| else cap)
    && multiset(beam) <= pushed
    && forall kept, other :: kept in beam && other in pushed - multiset(beam) ==> kept.cost <= other.cost
  }

  /** Insert, or replace the costliest entry of a full beam if the newcomer is cheaper. */
  method Push(beam: seq<Route>, cap: nat, r: Route, ghost pushed: multiset<Route>)
    returns (out: seq<Route>, inserted: bool)
    requires cap >= 1 && KBest(beam, cap, pushed)
    ensures KBest(out, cap, pushed + multiset{r})
    ensures |beam| < cap ==> inserted && out == beam + [r]
    ensures !inserted ==> out == beam
  {
    BeamSize(beam, cap, pushed);
    hide KBest;
    if |beam| < cap {
      AppendKeepsBest(beam, cap, r, pushed);
      return beam + [r], true;
    }
    var worst := Costliest(beam);
    if r.cost < beam[worst].cost {
      ReplaceWorst(beam, cap, r, pushed, worst);
      return beam[worst := r], true;
    }
    SkipKeepsBest(beam, cap, r, pushed);
    return beam, false;
  }

  method Costliest(beam: seq<Route>) returns (worst: nat)
    requires beam != []
    ensures worst < |beam| && forall kept :: kept in beam ==> kept.cost <= beam[worst].cost
  {
    worst := 0;
    for i := 1 to |beam|
      invariant 0 <= worst < |beam|
      invariant forall k :: 0 <= k < i ==> beam[k].cost <= beam[worst].cost
    {
      if beam[i].cost > beam[worst].cost {
        worst := i;
      }
    }
  }

  lemma BeamSize(beam: seq<Route>, cap: nat, pushed: multiset<Route>)
    requires KBest(beam, cap, pushed)
    ensures |beam| == if |pushed| < cap then |pushed| else cap
  {
  }

  lemma AppendKeepsBest(beam: seq<Route>, cap: nat, r: Route, pushed: multiset<Route>)
    requires KBest(beam, cap, pushed) && |beam| < cap
    ensures KBest(beam + [r], cap, pushed + multiset{r})
  {
    WholeMultiset(beam, pushed);
    assert multiset(beam + [r]) == multiset(beam) + multiset{r};
    assert pushed + multiset{r} - multiset(beam + [r]) == multiset{};
  }

  lemma SkipKeepsBest(beam: seq<Route>, cap: nat, r: Route, pushed: multiset<Route>)
    requires KBest(beam, cap, pushed) && |beam| == cap && forall kept :: kept in beam ==> kept.cost <= r.cost
    ensures KBest(beam, cap, pushed + multiset{r})
  {
    assert pushed + multiset{r} - multiset(beam) == pushed - multiset(beam) + multiset{r};
  }

  lemma WholeMultiset(beam: seq<Route>, pushed: multiset<Route>)
    requires multiset(beam) <= pushed && |beam| == |pushed|
    ensures pushed - multiset(beam) == multiset{}
  {
    assert |pushed - multiset(beam)| == |pushed| - |multiset(beam)|;
  }

  lemma ReplaceWorst(beam: seq<Route>, cap: nat, r: Route, pushed: multiset<Route>, worst: nat)
    requires KBest(beam, cap, pushed) && |beam| == cap && worst < |beam|
    requires forall kept :: kept in beam ==> kept.cost <= beam[worst].cost
    requires r.cost < beam[worst].cost
    ensures KBest(beam[worst := r], cap, pushed + multiset{r})
  {
    var out, w := beam[worst := r], beam[worst];
    assert beam == beam[..worst] + [w] + beam[worst + 1..];
    assert out == beam[..worst] + [r] + beam[worst + 1..];
    assert multiset(out) == multiset(beam) - multiset{w} + multiset{r};
    assert pushed + multiset{r} - multiset(out) == pushed - multiset(beam) + multiset{w};
    forall kept, other | kept in out && other in pushed + multiset{r} - multiset(out)
      ensures kept.cost <= other.cost
    {
      assert kept in multiset(out);
      if other in pushed - multiset(beam) {
        assert w in beam;
      }
    }
  }

  /** Index of the cheapest route kept, the first one on ties. */
  method Cheapest(beam: seq<Route>) returns (best: nat)
    requires beam != []
    ensures best < |beam|
    ensures forall k :: 0 <= k < |beam| ==> beam[best].cost <= beam[k].cost
    ensures forall k :: 0 <= k < best ==> beam[best].cost < beam[k].cost
  {
    best := 0;
    for i := 1 to |beam|
      invariant best < i
      invariant forall k :: 0 <= k < i ==> beam[best].cost <= beam[k].cost
      invariant forall k :: 0 <= k < best ==> beam[best].cost < beam[k].cost
    {
      if beam[i].cost < beam[best].cost {
        best := i;
      }
    }
  }

  /** Eviction never loses the optimum: the cheapest route kept is the cheapest ever pushed. */
  lemma CheapestOfAll(beam: seq<Route>, cap: nat, pushed: multiset<Route>, best: nat, r: Route)
    requires KBest(beam, cap, pushed) && best < |beam| && r in pushed
    requires forall k :: 0 <= k < |beam| ==> beam[best].cost <= beam[k].cost
    ensures beam[best].cost <= r.cost && beam[best] in pushed
  {
    assert beam[best] in multiset(beam);
    if r in multiset(beam) {
      assert r in beam;
    } else {
      assert r in pushed - multiset(beam);
    }
  }
}
