/** The route search: an iterative depth-first search on an explicit stack, pruned by visited
    nodes and by one Pareto frontier per node, collecting candidates in a K-best beam.

    The search is proved while it runs against a ghost trail of what it accepted: every walk
    whose signature entered a frontier or that was expanded, and every route pushed. */
module CgrSearch {
  import opened Bundles
  import opened Contacts
  import opened CgrModel
  import opened CgrFrontier
  import opened CgrBeam

  const TABLE_MAX: nat := 8

  datatype Frame = Frame(contact: nat, pathLen: nat, tArrive: real, visited: seq<NodeId>, nextIdx: nat)

  datatype NodeFrontier = NodeFrontier(node: NodeId, sigs: seq<Sig>)

  type Table = seq<NodeFrontier>

  datatype Trail = Trail(accepted: set<Path>, pushed: multiset<Route>)

  /** `Overflow`: a frontier would take a ninth entry, which the code writes out of bounds.
      `Unpruned`: a walk would be expanded at a node that found no room in the frontier table;
      nothing then stops the code from expanding it again whenever it returns to it. */
  datatype Outcome = Completed | Overflow | Unpruned

  datatype SearchResult = Found(route: Route) | NoRoute | Stopped(why: Outcome)

  function BeamCap(q: Query): nat { if q.cfg.maxRoutes > BEAM_MAX then BEAM_MAX else q.cfg.maxRoutes }

  /** Nodes that receive some contact, other than the source. */
  ghost function Others(q: Query): set<NodeId> {
    set j | 0 <= j < |q.cs| && q.cs[j].to != q.curr :: q.cs[j].to
  }

  // ---- The frontier table ----

  ghost predicate CoveredAt(table: Table, n: NodeId, s: Sig) {
    exists a :: 0 <= a < |table| && table[a].node == n && Covered(table[a].sigs, s)
  }

  /** `s` is the signature at `n` of an accepted walk of two hops or more. */
  ghost predicate Witnessed(q: Query, X: set<Path>, n: NodeId, s: Sig) {
    exists p :: p in X && |p| >= 2 && InPlan(q, p) && End(q, p) == n && SigOf(q, p) == s
  }

  ghost predicate EntryOk(q: Query, X: set<Path>, e: NodeFrontier) {
    && e.node in Others(q) && |e.sigs| <= FRONTIER_MAX && Antichain(e.sigs)
    && forall k :: 0 <= k < |e.sigs| ==> Witnessed(q, X, e.node, e.sigs[k])
  }

  ghost predicate TableOk(q: Query, table: Table, X: set<Path>) {
    && |table| <= TABLE_MAX
    && (forall a, b :: 0 <= a < b < |table| ==> table[a].node != table[b].node)
    && (forall a :: 0 <= a < |table| ==> EntryOk(q, X, table[a]) && table[a].sigs != [])
  }

  /** What was covered stays covered. */
  ghost predicate CoverKept(table: Table, table': Table) {
    forall m, s {:trigger CoveredAt(table', m, s)} :: CoveredAt(table, m, s) ==> CoveredAt(table', m, s)
  }

  /** Nine accepted walks to one node, no two of them comparable. */
  ghost predicate Crowded(q: Query, X: set<Path>) {
    exists n, sigs :: CrowdedBy(q, X, n, sigs)
  }

  ghost predicate CrowdedBy(q: Query, X: set<Path>, n: NodeId, sigs: seq<Sig>) {
    && |sigs| == FRONTIER_MAX + 1 && Antichain(sigs)
    && forall k :: 0 <= k < |sigs| ==> Witnessed(q, X, n, sigs[k])
  }

  /** Accepted walks of two hops or more end at nine different nodes. */
  ghost predicate Spread(q: Query, X: set<Path>) { exists ns :: SpreadBy(q, X, ns) }

  ghost predicate SpreadBy(q: Query, X: set<Path>, ns: seq<NodeId>) {
    |ns| == TABLE_MAX + 1 && NoDup(ns) && forall i :: 0 <= i < |ns| ==> EndsAt(q, X, ns[i])
  }

  ghost predicate EndsAt(q: Query, X: set<Path>, n: NodeId) {
    exists p :: p in X && |p| >= 2 && InPlan(q, p) && End(q, p) == n
  }

  lemma EntryGrows(q: Query, X: set<Path>, Y: set<Path>, e: NodeFrontier)
    requires EntryOk(q, X, e) && X <= Y
    ensures EntryOk(q, Y, e)
  {
    forall k | 0 <= k < |e.sigs| ensures Witnessed(q, Y, e.node, e.sigs[k]) {
      assert Witnessed(q, X, e.node, e.sigs[k]);
    }
  }

  lemma TableGrows(q: Query, table: Table, X: set<Path>, Y: set<Path>)
    requires TableOk(q, table, X) && X <= Y
    ensures TableOk(q, table, Y)
  {
    forall a | 0 <= a < |table| ensures EntryOk(q, Y, table[a]) {
      EntryGrows(q, X, Y, table[a]);
    }
  }

  lemma {:induction false} DistinctCount<T>(s: seq<T>, S: set<T>)
    requires NoDup(s) && forall i :: 0 <= i < |s| ==> s[i] in S
    ensures |s| <= |S|
  {
    if s == [] {
    } else {
      var last := s[|s| - 1];
      DistinctCount(s[..|s| - 1], S - {last});
    }
  }

  method FindFrontier(table: Table, n: NodeId) returns (a: nat)
    ensures a <= |table|
    ensures a < |table| ==> table[a].node == n
    ensures a == |table| ==> forall b :: 0 <= b < |table| ==> table[b].node != n
  {
    a := 0;
    while a < |table|
      invariant a <= |table|
      invariant forall b :: 0 <= b < a ==> table[b].node != n
    {
      if table[a].node == n {
        return;
      }
      a := a + 1;
    }
  }

  datatype TableVerdict = Pruned | Entered | NoSlot | TooMany

  /** Offer the signature of the accepted-to-be walk `p` to the frontier at its end. */
  method OfferAt(q: Query, table: Table, n: NodeId, sig: Sig, ghost X: set<Path>, ghost p: Path)
    returns (out: Table, verdict: TableVerdict)
    requires TableOk(q, table, X) && n in Others(q)
    requires InPlan(q, p) && |p| >= 2 && End(q, p) == n && SigOf(q, p) == sig
    ensures verdict == Pruned <==> CoveredAt(table, n, sig)
    ensures verdict == Pruned ==> out == table
    ensures verdict == Entered ==> TableOk(q, out, X + {p}) && CoveredAt(out, n, sig)
    ensures verdict == NoSlot ==> out == table && |Others(q)| > TABLE_MAX && Spread(q, X + {p})
    ensures verdict == TooMany ==> Crowded(q, X + {p})
    ensures verdict != TooMany ==> CoverKept(table, out)
  {
    var a := FindFrontier(table, n);
    if a == |table| && |table| >= TABLE_MAX {
      NoSlotLeft(q, table, n, X);
      NoSlotSpreads(q, table, X, p);
      return table, NoSlot;
    }
    var entry := if a < |table| then table[a] else NodeFrontier(n, []);
    assert EntryOk(q, X, entry);
    CoveredByEntry(table, a, n, sig);
    var sigs, v := Offer(entry.sigs, sig);
    if v == Dominated {
      return table, Pruned;
    }
    InsertedEntry(q, X, p, entry, sig);
    if v == CgrFrontier.Overflow {
      assert CrowdedBy(q, X + {p}, n, sigs);
      return table, TooMany;
    }
    NewestCovers(entry.sigs, sig);
    hide CoveredAt, Covered, Survivors, CoverKept, Witnessed, Antichain;
    if a < |table| {
      out := table[a := NodeFrontier(n, sigs)];
      ReplacedEntry(q, table, X, p, a, sig, out);
    } else {
      out := table + [NodeFrontier(n, sigs)];
      AppendedEntry(q, table, X, p, NodeFrontier(n, sigs), out);
    }
    CoveredBySome(out, a, sig);
    verdict := Entered;
  }

  /** Only the node's own entry decides whether a signature is covered there. */
  lemma CoveredByEntry(table: Table, a: nat, n: NodeId, sig: Sig)
    requires a <= |table| && forall b, c :: 0 <= b < c < |table| ==> table[b].node != table[c].node
    requires if a < |table| then table[a].node == n else forall b :: 0 <= b < |table| ==> table[b].node != n
    ensures CoveredAt(table, n, sig) <==> a < |table| && Covered(table[a].sigs, sig)
    ensures !Covered([], sig)
  {
    hide Covered;
    if CoveredAt(table, n, sig) {
      var b :| 0 <= b < |table| && table[b].node == n && Covered(table[b].sigs, sig);
      assert a == b;
    }
    NoneCovers(sig);
  }

  lemma NoneCovers(sig: Sig)
    ensures !Covered([], sig)
  {
  }

  lemma NewestCovers(sigs: seq<Sig>, sig: Sig)
    ensures Covered(Survivors(sigs, sig) + [sig], sig)
  {
    var out := Survivors(sigs, sig) + [sig];
    assert Dominates(out[|out| - 1], sig);
  }

  lemma CoveredBySome(table: Table, a: nat, sig: Sig)
    requires a < |table| && Covered(table[a].sigs, sig)
    ensures CoveredAt(table, table[a].node, sig)
  {
  }

  lemma NoSlotLeft(q: Query, table: Table, n: NodeId, X: set<Path>)
    requires TableOk(q, table, X) && n in Others(q) && |table| == TABLE_MAX
    requires forall b :: 0 <= b < |table| ==> table[b].node != n
    ensures |Others(q)| > TABLE_MAX
  {
    var nodes := seq(|table|, b requires 0 <= b < |table| => table[b].node);
    forall b | 0 <= b < |table| ensures table[b].node in Others(q) {
      assert EntryOk(q, X, table[b]);
    }
    DistinctCount(nodes + [n], Others(q));
  }

  /** A full table and a walk to a node outside it: nine nodes are reached. */
  lemma NoSlotSpreads(q: Query, table: Table, X: set<Path>, p: Path)
    requires TableOk(q, table, X) && |table| == TABLE_MAX && |p| >= 2 && InPlan(q, p)
    requires forall b :: 0 <= b < |table| ==> table[b].node != End(q, p)
    ensures Spread(q, X + {p})
  {
    var Y := X + {p};
    var ns := seq(|table|, b requires 0 <= b < |table| => table[b].node) + [End(q, p)];
    forall i | 0 <= i < |ns| ensures EndsAt(q, Y, ns[i]) {
      if i < |table| {
        assert EntryOk(q, X, table[i]) && Witnessed(q, X, table[i].node, table[i].sigs[0]);
        var r :| r in X && |r| >= 2 && InPlan(q, r) && End(q, r) == table[i].node;
        assert r in Y;
      } else {
        assert p in Y;
      }
    }
    assert SpreadBy(q, Y, ns);
  }

  lemma InsertedEntry(q: Query, X: set<Path>, p: Path, e: NodeFrontier, sig: Sig)
    requires EntryOk(q, X, e) && !Covered(e.sigs, sig)
    requires InPlan(q, p) && |p| >= 2 && End(q, p) == e.node && SigOf(q, p) == sig
    ensures Antichain(Survivors(e.sigs, sig) + [sig])
    ensures forall k :: 0 <= k < |Survivors(e.sigs, sig) + [sig]| ==>
      Witnessed(q, X + {p}, e.node, (Survivors(e.sigs, sig) + [sig])[k])
  {
    InsertAntichain(e.sigs, sig);
    SurvivorsExact(e.sigs, sig);
    var kept := Survivors(e.sigs, sig);
    forall k | 0 <= k < |kept| + 1 ensures Witnessed(q, X + {p}, e.node, (kept + [sig])[k]) {
      if k == |kept| {
        assert p in X + {p};
      } else {
        assert kept[k] in e.sigs;
        var i :| 0 <= i < |e.sigs| && e.sigs[i] == kept[k];
        assert Witnessed(q, X, e.node, e.sigs[i]);
      }
    }
  }

  lemma ReplacedEntry(q: Query, table: Table, X: set<Path>, p: Path, a: nat, sig: Sig, out: Table)
    requires TableOk(q, table, X) && a < |table|
    requires out == table[a := NodeFrontier(table[a].node, Survivors(table[a].sigs, sig) + [sig])]
    requires EntryOk(q, X + {p}, out[a])
    ensures TableOk(q, out, X + {p})
    ensures CoverKept(table, out)
  {
    forall b | 0 <= b < |out| ensures EntryOk(q, X + {p}, out[b]) {
      if b != a {
        EntryGrows(q, X, X + {p}, table[b]);
      }
    }
    forall m, s | CoveredAt(table, m, s) ensures CoveredAt(out, m, s) {
      CoverStays(table, out, sig, m, s);
    }
  }

  lemma AppendedEntry(q: Query, table: Table, X: set<Path>, p: Path, e: NodeFrontier, out: Table)
    requires TableOk(q, table, X) && |table| < TABLE_MAX && out == table + [e]
    requires e.sigs != [] && EntryOk(q, X + {p}, e) && forall b :: 0 <= b < |table| ==> table[b].node != e.node
    ensures TableOk(q, out, X + {p})
    ensures CoverKept(table, out)
  {
    forall b | 0 <= b < |out| ensures EntryOk(q, X + {p}, out[b]) {
      if b < |table| {
        EntryGrows(q, X, X + {p}, table[b]);
      }
    }
    forall m, s | CoveredAt(table, m, s) ensures CoveredAt(out, m, s) {
      var b :| 0 <= b < |table| && table[b].node == m && Covered(table[b].sigs, s);
      assert out[b] == table[b];
    }
  }

  /** Entries are only ever kept or refined, so what was covered stays covered. */
  lemma CoverStays(table: Table, out: Table, sig: Sig, m: NodeId, s: Sig)
    requires |table| <= |out| && CoveredAt(table, m, s)
    requires forall b :: 0 <= b < |table| ==>
      out[b] == table[b] || out[b] == NodeFrontier(table[b].node, Survivors(table[b].sigs, sig) + [sig])
    ensures CoveredAt(out, m, s)
  {
    var b :| 0 <= b < |table| && table[b].node == m && Covered(table[b].sigs, s);
    InsertKeepsCover(table[b].sigs, sig, s);
    assert out[b].node == m && Covered(out[b].sigs, s);
  }

  // ---- Small scans ----

  method VisitedContains(visited: seq<NodeId>, n: NodeId) returns (found: bool)
    ensures found <==> n in visited
  {
    for i := 0 to |visited|
      invariant n !in visited[..i]
    {
      if visited[i] == n {
        return true;
      }
    }
    assert visited[..|visited|] == visited;
    return false;
  }

  /** Every check a contact must pass before the search takes it, in the code's order. */
  method Admits(q: Query, j: nat, at: real) returns (ok: bool)
    requires j < |q.cs|
    ensures ok <==> Usable(q, j, at)
  {
    var c, size := q.cs[j], q.size as real;
    if c.status == Down { return false; }
    if !(IsActive(c, at) || IsFuture(c, at)) { return false; }
    var start := EarliestStart(c, at);
    if start >= c.tEnd { return false; }
    if start + TxDuration(c, size) > c.tEnd { return false; }
    var arrival := ArrivalAtReceiver(c, size, start);
    if arrival >= q.tExp { return false; }
    if CapUse(c, start) < size { return false; }
    if q.cfg.berAware && !BerFeasible(c, size, q.ln) { return false; }
    return true;
  }

  /** Confidence product along the hops. */
  method ConfProduct(q: Query, hops: Path) returns (conf: real)
    requires InPlan(q, hops)
    ensures conf == ConfOf(q, hops)
  {
    conf := 1.0;
    for i := 0 to |hops|
      invariant conf == ConfOf(q, hops[..i])
    {
      assert hops[..i + 1][..i] == hops[..i];
      conf := conf * q.cs[hops[i]].conf;
    }
    assert hops[..|hops|] == hops;
  }

  /** The cost of recorded hops: confidence product and smallest margin, simulated forward. */
  method ComputeCost(q: Query, hops: Path, arrival: real) returns (cost: real)
    requires InPlan(q, hops)
    ensures cost == Cost(q, hops, arrival)
  {
    hide Carried, TxDuration, Times;
    var conf := ConfProduct(q, hops);
    var margin, at := MARGIN_TOP, q.t;
    for i := 0 to |hops|
      invariant at == ArriveAt(q, hops[..i]) && margin == MinMargin(q, hops[..i])
    {
      assert hops[..i + 1][..i] == hops[..i];
      var c := q.cs[hops[i]];
      var start := EarliestStart(c, at);
      var m := CapUse(c, start) - q.size as real;
      if m < margin {
        margin := m;
      }
      at := ArrivalAtReceiver(c, q.size as real, start);
    }
    assert hops[..|hops|] == hops;
    var logConf := q.ln(if conf > CONF_FLOOR then conf else CONF_FLOOR);
    cost := q.cfg.w1 * (arrival - q.t) - q.cfg.w2 * logConf - q.cfg.w3 * margin;
  }

  // ---- The stack ----

  /** The walk on the stack: one contact per frame. */
  function PathOf(stack: seq<Frame>): (p: Path)
    ensures |p| == |stack|
  {
    seq(|stack|, i requires 0 <= i < |stack| => stack[i].contact)
  }

  /** The first `k` departures from the end of `p` have been considered. */
  ghost predicate DoneUpTo(q: Query, X: set<Path>, p: Path, k: nat)
    requires InPlan(q, p)
  {
    var deps := Departures(q.cs, End(q, p));
    k <= |deps| && forall i :: 0 <= i < k ==> deps[i] < |q.cs| && Handled(q, X, p, deps[i])
  }

  ghost predicate FrameOk(q: Query, X: set<Path>, f: Frame, p: Path) {
    && p in X && Accepted(q, p, X) && End(q, p) != q.dst
    && f.contact == p[|p| - 1] && f.pathLen == |p|
    && f.tArrive == ArriveAt(q, p) && f.visited == VisitedOf(q, p)
    && DoneUpTo(q, X, p, f.nextIdx)
  }

  ghost predicate ChildCovered(q: Query, table: Table, p: Path, j: nat) {
    j < |q.cs| && InPlan(q, p + [j]) && CoveredAt(table, q.cs[j].to, SigOf(q, p + [j]))
  }

  /** The contact a frame is at. */
  function Current(q: Query, f: Frame, p: Path): nat {
    if InPlan(q, p) && f.nextIdx < |Departures(q.cs, End(q, p))| then Departures(q.cs, End(q, p))[f.nextIdx] else 0
  }

  /** The frame's current contact is `j`, already accepted and covered at its receiver. */
  ghost predicate OnChild(q: Query, table: Table, f: Frame, p: Path, j: nat) {
    && InPlan(q, p) && f.nextIdx < |Departures(q.cs, End(q, p))|
    && Current(q, f, p) == j && ChildCovered(q, table, p, j)
  }

  predicate Placed(q: Query, stack: seq<Frame>) {
    |stack| <= STACK_MAX && forall i :: 0 <= i < |stack| ==> stack[i].contact < |q.cs|
  }

  ghost predicate StackOk(q: Query, X: set<Path>, table: Table, stack: seq<Frame>) {
    && Placed(q, stack)
    && (forall i :: 0 <= i < |stack| ==> FrameOk(q, X, stack[i], PathOf(stack)[..i + 1]))
    && (forall i :: 0 <= i < |stack| - 1 ==>
      OnChild(q, table, stack[i], PathOf(stack)[..i + 1], stack[i + 1].contact))
  }

  ghost predicate BeamOk(q: Query, beam: seq<Route>, tr: Trail) {
    && KBest(beam, BeamCap(q), tr.pushed)
    && (forall r :: r in tr.pushed ==>
      exists p :: p in tr.accepted && InPlan(q, p) && End(q, p) == q.dst && r == Candidate(q, p))
    && (forall p :: p in tr.accepted && InPlan(q, p) && End(q, p) == q.dst ==> Candidate(q, p) in tr.pushed)
  }

  // ---- Earlier seeds come first ----

  /** Walks that hold a place in the frontier table: all of two hops or more when the table has
      room for every receiver, otherwise those the search goes on from. */
  ghost predicate Filed(q: Query, p: Path) {
    && |p| >= 2 && InPlan(q, p)
    && (|Others(q)| <= TABLE_MAX || (End(q, p) != q.dst && |p| <= STACK_MAX))
  }

  /** Every filed signature is covered at its receiver. */
  ghost predicate AllCovered(q: Query, table: Table, X: set<Path>) {
    forall p {:trigger SigOf(q, p)} {:trigger Filed(q, p)} ::
      p in X && Filed(q, p) ==> CoveredAt(table, End(q, p), SigOf(q, p))
  }

  predicate Rivals(q: Query, p: Path, r: Path) {
    |p| >= 2 && |r| >= 2 && InPlan(q, p) && InPlan(q, r) && End(q, p) == End(q, r)
  }

  /** No accepted walk is dominated by one accepted from an earlier seed. */
  ghost predicate FirstCome(q: Query, X: set<Path>) {
    forall p, r {:trigger Rivals(q, p, r)} ::
      p in X && r in X && Rivals(q, p, r) && p[0] < r[0] ==> !Dominates(SigOf(q, p), SigOf(q, r))
  }

  ghost predicate Orderly(q: Query, table: Table, X: set<Path>) {
    AllCovered(q, table, X) && (|Others(q)| <= TABLE_MAX ==> FirstCome(q, X))
  }

  ghost predicate SeedsUpTo(X: set<Path>, s: nat) { forall p :: p in X ==> p != [] && p[0] <= s }

  /** Whatever was accepted on the way from `tr` to `tr'` starts with contact `seed`. */
  ghost predicate AddsFrom(tr: Trail, tr': Trail, seed: nat) {
    Grows(tr, tr') && forall p :: p in tr'.accepted ==> p in tr.accepted || (p != [] && p[0] == seed)
  }

  lemma CoveredDown(table: Table, n: NodeId, a: Sig, b: Sig)
    requires CoveredAt(table, n, a) && Dominates(a, b)
    ensures CoveredAt(table, n, b)
  {
    var e :| 0 <= e < |table| && table[e].node == n && Covered(table[e].sigs, a);
    var k :| 0 <= k < |table[e].sigs| && Dominates(table[e].sigs[k], a);
    assert Dominates(table[e].sigs[k], b);
  }

  lemma OrderlyStep(q: Query, table: Table, table': Table, X: set<Path>, p: Path)
    requires Orderly(q, table, X) && |p| >= 2 && InPlan(q, p) && SeedsUpTo(X, p[0]) && CoverKept(table, table')
    requires |Others(q)| <= TABLE_MAX ==> !CoveredAt(table, End(q, p), SigOf(q, p))
    requires Filed(q, p) ==> CoveredAt(table', End(q, p), SigOf(q, p))
    ensures Orderly(q, table', X + {p})
  {
    hide SigOf, CoveredAt, Dominates;
    if |Others(q)| <= TABLE_MAX {
      forall r | r in X && Rivals(q, r, p) ensures !Dominates(SigOf(q, r), SigOf(q, p)) {
        assert Filed(q, r);
        if Dominates(SigOf(q, r), SigOf(q, p)) {
          CoveredDown(table, End(q, p), SigOf(q, r), SigOf(q, p));
        }
      }
      assert FirstCome(q, X + {p});
    }
    assert AllCovered(q, table', X + {p});
  }

  lemma OrderlySeed(q: Query, table: Table, X: set<Path>, j: nat)
    requires Orderly(q, table, X)
    ensures Orderly(q, table, X + {[j]})
  {
    hide SigOf, CoveredAt, Dominates;
  }

  /** What every step of the search keeps. */
  ghost predicate Invariant(q: Query, table: Table, beam: seq<Route>, tr: Trail) {
    && AllAccepted(q, tr.accepted) && TableOk(q, table, tr.accepted) && BeamOk(q, beam, tr)
    && Orderly(q, table, tr.accepted)
  }

  ghost predicate Grows(tr: Trail, tr': Trail) { tr.accepted <= tr'.accepted && tr.pushed <= tr'.pushed }

  lemma HandledGrows(q: Query, X: set<Path>, Y: set<Path>, p: Path, j: nat)
    requires InPlan(q, p) && j < |q.cs| && Handled(q, X, p, j) && X <= Y
    ensures Handled(q, Y, p, j)
  {
    hide Usable, HopArrival, HopConf, VisitedOf;
  }

  lemma FrameGrows(q: Query, X: set<Path>, Y: set<Path>, f: Frame, p: Path)
    requires FrameOk(q, X, f, p) && X <= Y
    ensures FrameOk(q, Y, f, p)
  {
    hide Usable, HopArrival, HopConf, VisitedOf, Walk;
    var deps := Departures(q.cs, End(q, p));
    forall i | 0 <= i < f.nextIdx ensures deps[i] < |q.cs| && Handled(q, Y, p, deps[i]) {
      HandledGrows(q, X, Y, p, deps[i]);
    }
  }

  /** Taking an eligible contact from an accepted walk gives an accepted walk. */
  lemma AcceptStep(q: Query, X: set<Path>, p: Path, j: nat)
    requires AllAccepted(q, X) && p in X && InPlan(q, p) && End(q, p) != q.dst
    requires j < |q.cs| && q.cs[j].frm == End(q, p) && |p| <= Limit(q)
    requires Usable(q, j, ArriveAt(q, p)) && q.cs[j].to !in VisitedOf(q, p)
    ensures AllAccepted(q, X + {p + [j]})
    ensures InPlan(q, p + [j]) && Accepted(q, p + [j], X + {p + [j]})
    ensures Handled(q, X + {p + [j]}, p, j)
    ensures q.cs[j].to in Others(q)
  {
    hide Usable, HopArrival, HopConf;
    var Y := X + {p + [j]};
    assert Accepted(q, p, X);
    Extend(q, p, j);
    VisitedStart(q, p);
    forall r | r in Y ensures Accepted(q, r, Y) {
      if r in X {
        assert Accepted(q, r, X);
      }
    }
    MatchedBy(q, Y, p + [j], p + [j]);
    assert VisitedOf(q, p)[0] in VisitedOf(q, p);
  }

  lemma BeamTakes(q: Query, beam: seq<Route>, beam': seq<Route>, tr: Trail, p: Path)
    requires BeamOk(q, beam, tr) && InPlan(q, p) && End(q, p) == q.dst
    requires KBest(beam', BeamCap(q), tr.pushed + multiset{Candidate(q, p)})
    ensures BeamOk(q, beam', Trail(tr.accepted + {p}, tr.pushed + multiset{Candidate(q, p)}))
  {
    hide KBest, Candidate;
  }

  lemma BeamIgnores(q: Query, beam: seq<Route>, tr: Trail, p: Path)
    requires BeamOk(q, beam, tr) && InPlan(q, p) && End(q, p) != q.dst
    ensures BeamOk(q, beam, Trail(tr.accepted + {p}, tr.pushed))
  {
    hide KBest, Candidate;
  }

  // ---- One contact ----

  datatype Step = Skip | Push(child: Frame) | Halt(why: Outcome)

  /** Record the walk on the stack extended by `j`, as far as the record has room. */
  method RecordHops(stack: seq<Frame>, j: nat) returns (hops: Path)
    ensures hops == Kept(PathOf(stack) + [j])
    ensures hops == if |stack| + 1 <= 10 then PathOf(stack) + [j] else (PathOf(stack) + [j])[..10]
  {
    hops := [];
    for i := 0 to |stack|
      invariant hops == Kept(PathOf(stack)[..i])
    {
      if |hops| < ROUTE_MAX_HOPS {
        hops := hops + [stack[i].contact];
      }
    }
    if |hops| < ROUTE_MAX_HOPS {
      hops := hops + [j];
    }
  }

  lemma KeptInPlan(q: Query, p: Path)
    requires InPlan(q, p)
    ensures InPlan(q, Kept(p))
  {
  }

  /** Consider contact `j` from the top frame: the body of the expansion loop. */
  method TryContact(q: Query, stack: seq<Frame>, j: nat, table: Table, beam: seq<Route>, ghost tr: Trail)
    returns (step: Step, table': Table, beam': seq<Route>, ghost tr': Trail)
    requires Invariant(q, table, beam, tr) && BeamCap(q) >= 1
    requires 0 < |stack| <= Limit(q) && FrameOk(q, tr.accepted, stack[|stack| - 1], PathOf(stack))
    requires j < |q.cs| && q.cs[j].frm == End(q, PathOf(stack)) && SeedsUpTo(tr.accepted, stack[0].contact)
    ensures Grows(tr, tr')
    ensures forall r :: r in tr'.accepted ==> r in tr.accepted || r == PathOf(stack) + [j]
    ensures !step.Halt? ==> Invariant(q, table', beam', tr') && Handled(q, tr'.accepted, PathOf(stack), j)
    ensures !step.Halt? ==> CoverKept(table, table')
    ensures step.Skip? ==> tr' == tr || q.cs[j].to == q.dst || |stack| == STACK_MAX
    ensures step.Push? ==> |stack| < STACK_MAX && step.child.nextIdx == 0 && step.child.contact == j
    ensures step.Push? ==> FrameOk(q, tr'.accepted, step.child, PathOf(stack) + [j])
    ensures step.Push? ==> ChildCovered(q, table', PathOf(stack), j)
    ensures ChildCovered(q, table, PathOf(stack), j) ==> step.Skip?
    ensures step == Halt(Outcome.Overflow) ==> AllAccepted(q, tr'.accepted) && Crowded(q, tr'.accepted)
    ensures step == Halt(Unpruned) ==> AllAccepted(q, tr'.accepted) && Spread(q, tr'.accepted)
    ensures step != Halt(Completed)
  {
    hide Usable, HopConf, ArriveAt, ConfOf, Walk, Carried, TxDuration, CapUse, Cost, KBest, Dominates, CoveredAt,
      Crowded, Spread, Orderly;
    var f, c, size := stack[|stack| - 1], q.cs[j], q.size as real;
    ghost var p := PathOf(stack);
    ghost var p' := p + [j];
    table', beam', tr' := table, beam, tr;
    var ok := Admits(q, j, f.tArrive);
    if !ok { return Skip, table', beam', tr'; }
    var seen := VisitedContains(f.visited, c.to);
    if seen { return Skip, table', beam', tr'; }

    var start := EarliestStart(c, f.tArrive);
    var arrival := ArrivalAtReceiver(c, size, start);
    Extend(q, p, j);
    var conf := ConfProduct(q, PathOf(stack) + [j]);
    var sig := Sig(arrival, conf, CapUse(c, start) - size);
    AcceptStep(q, tr.accepted, p, j);
    assert sig == SigOf(q, p');
    var grown, verdict := OfferAt(q, table, c.to, sig, tr.accepted, p');
    if verdict == Pruned {
      PrunedIsHandled(q, table, tr.accepted, p, j);
      return Skip, table', beam', tr';
    }
    if verdict == TooMany {
      tr' := Trail(tr.accepted + {p'}, tr.pushed);
      return Halt(Outcome.Overflow), table', beam', tr';
    }
    table' := grown;
    TableGrows(q, table, tr.accepted, tr.accepted + {p'});
    if verdict != NoSlot || !Filed(q, p') {
      OrderlyStep(q, table, grown, tr.accepted, p');
    }
    step, beam', tr' := TakeContact(q, stack, j, arrival, verdict == NoSlot, table', beam, tr);
  }

  /** An accepted contact delivers a candidate at the destination, or becomes a new frame if
      the stack has room. */
  method TakeContact(q: Query, stack: seq<Frame>, j: nat, arrival: real, noSlot: bool, table: Table,
                     beam: seq<Route>, ghost tr: Trail)
    returns (step: Step, beam': seq<Route>, ghost tr': Trail)
    requires BeamOk(q, beam, tr) && BeamCap(q) >= 1 && j < |q.cs|
    requires 0 < |stack| <= STACK_MAX && FrameOk(q, tr.accepted, stack[|stack| - 1], PathOf(stack))
    requires var p' := PathOf(stack) + [j]; var X := tr.accepted + {p'};
      && Accepted(q, p', X) && arrival == ArriveAt(q, p') && AllAccepted(q, X) && TableOk(q, table, X)
      && Handled(q, X, PathOf(stack), j) && (Orderly(q, table, X) || (noSlot && Filed(q, p')))
      && VisitedOf(q, p') == VisitedOf(q, PathOf(stack)) + [q.cs[j].to]
      && (noSlot ==> |Others(q)| > TABLE_MAX && Spread(q, X)) && (!noSlot ==> ChildCovered(q, table, PathOf(stack), j))
    ensures Grows(tr, tr') && tr'.accepted == tr.accepted + {PathOf(stack) + [j]}
    ensures !step.Halt? ==> Invariant(q, table, beam', tr') && Handled(q, tr'.accepted, PathOf(stack), j)
    ensures step.Skip? ==> q.cs[j].to == q.dst || |stack| == STACK_MAX
    ensures step.Push? ==> |stack| < STACK_MAX && step.child.nextIdx == 0 && step.child.contact == j
    ensures step.Push? ==> FrameOk(q, tr'.accepted, step.child, PathOf(stack) + [j])
    ensures step.Push? ==> ChildCovered(q, table, PathOf(stack), j)
    ensures step.Halt? ==> step == Halt(Unpruned) && AllAccepted(q, tr'.accepted) && Spread(q, tr'.accepted)
  {
    hide AllAccepted, Handled, TableOk, ChildCovered, BeamOk, KBest, Cost, ArriveAt, ConfOf, Walk, Orderly;
    var c := q.cs[j];
    ghost var p' := PathOf(stack) + [j];
    if c.to == q.dst {
      var hops := RecordHops(stack, j);
      KeptInPlan(q, p');
      var cost := ComputeCost(q, hops, arrival);
      var r := Route(hops, cost, arrival);
      assert r == Candidate(q, p');
      var inserted;
      assert KBest(beam, BeamCap(q), tr.pushed) by { BeamIsKBest(q, beam, tr); }
      beam', inserted := CgrBeam.Push(beam, BeamCap(q), r, tr.pushed);
      tr' := Trail(tr.accepted + {p'}, tr.pushed + multiset{r});
      BeamTakes(q, beam, beam', tr, p');
      return Skip, beam', tr';
    }
    beam', tr' := beam, Trail(tr.accepted + {p'}, tr.pushed);
    BeamIgnores(q, beam, tr, p');
    if |stack| >= STACK_MAX { return Skip, beam', tr'; }
    if noSlot { return Halt(Unpruned), beam', tr'; }
    var f := stack[|stack| - 1];
    return Push(Frame(j, f.pathLen + 1, arrival, f.visited + [c.to], 0)), beam', tr';
  }

  lemma BeamIsKBest(q: Query, beam: seq<Route>, tr: Trail)
    requires BeamOk(q, beam, tr)
    ensures KBest(beam, BeamCap(q), tr.pushed)
  {
  }

  lemma CoveredIsMatched(q: Query, table: Table, X: set<Path>, p: Path)
    requires TableOk(q, table, X) && p != [] && InPlan(q, p) && CoveredAt(table, End(q, p), SigOf(q, p))
    ensures Matched(q, X, p)
  {
    hide SigOf;
    var a :| 0 <= a < |table| && table[a].node == End(q, p) && Covered(table[a].sigs, SigOf(q, p));
    assert EntryOk(q, X, table[a]);
    var i :| 0 <= i < |table[a].sigs| && Dominates(table[a].sigs[i], SigOf(q, p));
    assert Witnessed(q, X, table[a].node, table[a].sigs[i]);
    var r :| r in X && |r| >= 2 && InPlan(q, r) && End(q, r) == End(q, p) && SigOf(q, r) == table[a].sigs[i];
    MatchedBy(q, X, r, p);
  }

  /** A pruned signature is matched by the accepted walk whose signature covers it. */
  lemma PrunedIsHandled(q: Query, table: Table, X: set<Path>, p: Path, j: nat)
    requires TableOk(q, table, X) && InPlan(q, p) && j < |q.cs|
    requires InPlan(q, p + [j]) && CoveredAt(table, q.cs[j].to, SigOf(q, p + [j]))
    ensures Handled(q, X, p, j)
  {
    hide Usable, HopConf, HopArrival, Walk, VisitedOf;
    CoveredIsMatched(q, table, X, p + [j]);
  }

  // ---- The search order and its measure ----

  predicate OnStack(stack: seq<Frame>, r: Path) { 1 <= |r| <= |stack| && PathOf(stack)[..|r|] == r }

  /** Nothing is left to do for `r`: it ends at the destination, is too deep, is on the stack
      (whose frames record how far they got) or has been fully expanded. */
  ghost predicate Settled(q: Query, X: set<Path>, stack: seq<Frame>, r: Path) {
    InPlan(q, r) && (End(q, r) == q.dst || |r| > Limit(q) || OnStack(stack, r) || Expanded(q, X, r))
  }

  ghost predicate Progress(q: Query, X: set<Path>, stack: seq<Frame>) {
    forall r {:trigger Settled(q, X, stack, r)} :: r in X ==> Settled(q, X, stack, r)
  }

  lemma ExpandedGrows(q: Query, X: set<Path>, Y: set<Path>, p: Path)
    requires InPlan(q, p) && Expanded(q, X, p) && X <= Y
    ensures Expanded(q, Y, p)
  {
    hide Usable, HopArrival, HopConf, VisitedOf;
    forall j: nat | j < |q.cs| && q.cs[j].frm == End(q, p) ensures Handled(q, Y, p, j) {
      HandledGrows(q, X, Y, p, j);
    }
  }

  lemma DoneIsExpanded(q: Query, X: set<Path>, p: Path)
    requires InPlan(q, p) && DoneUpTo(q, X, p, |Departures(q.cs, End(q, p))|)
    ensures Expanded(q, X, p)
  {
    DeparturesExact(q.cs, End(q, p));
  }

  lemma ProgressGrows(q: Query, X: set<Path>, Y: set<Path>, stack: seq<Frame>, stack': seq<Frame>)
    requires Progress(q, X, stack) && X <= Y
    requires forall r :: r in X && OnStack(stack, r) ==> OnStack(stack', r)
    requires forall r :: r in Y && r !in X ==> Settled(q, Y, stack', r)
    ensures Progress(q, Y, stack')
  {
    forall r | r in Y ensures Settled(q, Y, stack', r) {
      if r in X {
        assert Settled(q, X, stack, r);
        if Expanded(q, X, r) {
          ExpandedGrows(q, X, Y, r);
        }
      }
    }
  }

  /** Steps a fresh frame with `k` levels below the top can take over a plan of `n` contacts. */
  function Weight(n: nat, k: nat): nat { if k == 0 then 0 else 1 + n * (Weight(n, k - 1) + 1) }

  function Rest(n: nat, i: nat): nat { if i < n then n - i else 0 }

  function Degree(q: Query, f: Frame): nat
    requires f.contact < |q.cs|
  {
    |Departures(q.cs, q.cs[f.contact].to)|
  }

  /** Work left in a frame at height `i` with `left` contacts to go. */
  function FrameWork(q: Query, i: nat, left: nat): nat
    requires i < STACK_MAX
  {
    1 + left * (Weight(|q.cs|, STACK_MAX - 1 - i) + 1)
  }

  /** Work left in frames whose current contact is being explored above them. */
  function Below(q: Query, stack: seq<Frame>): nat
    requires Placed(q, stack)
  {
    if stack == [] then 0
    else
      var i := |stack| - 1;
      Below(q, stack[..i]) + FrameWork(q, i, Rest(Degree(q, stack[i]), stack[i].nextIdx + 1))
  }

  /** Work left in the search; a resumed top frame will pass over its current contact. */
  function Work(q: Query, stack: seq<Frame>, resumed: bool): nat
    requires Placed(q, stack)
  {
    if stack == [] then 0
    else
      var i := |stack| - 1;
      Below(q, stack[..i])
      + FrameWork(q, i, Rest(Degree(q, stack[i]), stack[i].nextIdx + if resumed then 1 else 0))
  }

  lemma MoreLeftMoreWork(w: nat, a: nat, b: nat)
    requires a <= b
    ensures a * w <= b * w
  {
    assert (b - a) * w >= 0;
  }

  lemma ParentOutweighsChild(n: nat, w1: nat, d: nat, left: nat, all: nat)
    requires d <= n && 1 <= left <= all
    ensures 1 + (left - 1) * (n * w1 + 2) + 1 + d * w1 < 1 + all * (n * w1 + 2)
  {
    MoreLeftMoreWork(w1, d, n);
    MoreLeftMoreWork(n * w1 + 2, left, all);
    assert (left - 1) * (n * w1 + 2) == left * (n * w1 + 2) - (n * w1 + 2);
  }

  lemma FrameOutweighsChild(q: Query, i: nat, d: nat, left: nat, all: nat)
    requires i + 1 < STACK_MAX && d <= |q.cs| && 1 <= left <= all
    ensures FrameWork(q, i, left - 1) + FrameWork(q, i + 1, d) < FrameWork(q, i, all)
  {
    var w1 := Weight(|q.cs|, STACK_MAX - 2 - i) + 1;
    assert Weight(|q.cs|, STACK_MAX - 1 - i) == 1 + |q.cs| * w1;
    ParentOutweighsChild(|q.cs|, w1, d, left, all);
  }

  lemma WorkOfPush(q: Query, base: seq<Frame>, g: Frame, child: Frame)
    requires Placed(q, base) && g.contact < |q.cs| && child.contact < |q.cs|
    requires |base| + 1 < STACK_MAX && child.nextIdx == 0
    ensures Placed(q, base + [g, child])
    ensures Work(q, base + [g, child], false)
            == Below(q, base) + FrameWork(q, |base|, Rest(Degree(q, g), g.nextIdx + 1))
               + FrameWork(q, |base| + 1, Degree(q, child))
  {
    hide FrameWork, Below, Degree;
    var stack := base + [g, child];
    assert stack[..|base| + 1] == base + [g];
    BelowSnoc(q, base, g);
  }

  lemma BelowSnoc(q: Query, base: seq<Frame>, g: Frame)
    requires Placed(q, base) && |base| < STACK_MAX && g.contact < |q.cs|
    ensures Placed(q, base + [g])
    ensures Below(q, base + [g]) == Below(q, base) + FrameWork(q, |base|, Rest(Degree(q, g), g.nextIdx + 1))
  {
    hide FrameWork, Degree;
    assert (base + [g])[..|base|] == base;
  }

  /** Pushing a fresh child spends one contact of the parent, which outweighs the child. */
  lemma PushDecreases(q: Query, base: seq<Frame>, f: Frame, idx: nat, child: Frame, from: nat)
    requires Placed(q, base) && f.contact < |q.cs| && child.contact < |q.cs|
    requires |base| + 1 < STACK_MAX && child.nextIdx == 0
    requires from <= idx < Degree(q, f)
    ensures Placed(q, base + [f.(nextIdx := idx), child])
    ensures Work(q, base + [f.(nextIdx := idx), child], false)
            < Below(q, base) + FrameWork(q, |base|, Rest(Degree(q, f), from))
  {
    hide FrameWork, Work, Below;
    WorkOfPush(q, base, f.(nextIdx := idx), child);
    FrameOutweighsChild(q, |base|, Degree(q, child), Degree(q, f) - idx, Degree(q, f) - from);
  }

  /** Dropping the top frame and resuming the one below it loses the top frame's own unit. */
  lemma PopDecreases(q: Query, stack: seq<Frame>, resumed: bool)
    requires stack != [] && Placed(q, stack)
    ensures Placed(q, stack[..|stack| - 1])
    ensures Work(q, stack[..|stack| - 1], true) < Work(q, stack, resumed)
  {
    hide FrameWork, Degree;
    var i := |stack| - 1;
    FrameWorkPositive(q, i, Rest(Degree(q, stack[i]), stack[i].nextIdx + if resumed then 1 else 0));
  }

  lemma FrameWorkPositive(q: Query, i: nat, left: nat)
    requires i < STACK_MAX
    ensures FrameWork(q, i, left) > 0
  {
    hide Weight;
  }

  // ---- Stack updates ----

  /** After a pop, the frame on top is back at a contact it has already accepted. */
  ghost predicate Resumable(q: Query, table: Table, stack: seq<Frame>, resumed: bool) {
    resumed && stack != [] ==>
      var f, p := stack[|stack| - 1], PathOf(stack);
      OnChild(q, table, f, p, Current(q, f, p))
  }

  /** The search's loop invariant. */
  ghost predicate Searching(q: Query, table: Table, beam: seq<Route>, tr: Trail, stack: seq<Frame>, resumed: bool) {
    && Invariant(q, table, beam, tr)
    && StackOk(q, tr.accepted, table, stack)
    && Progress(q, tr.accepted, stack)
    && Resumable(q, table, stack, resumed)
  }

  lemma StackGrows(q: Query, X: set<Path>, Y: set<Path>, table: Table, table': Table, stack: seq<Frame>)
    requires StackOk(q, X, table, stack) && X <= Y && CoverKept(table, table')
    ensures StackOk(q, Y, table', stack)
  {
    var p := PathOf(stack);
    forall i | 0 <= i < |stack| ensures FrameOk(q, Y, stack[i], p[..i + 1]) {
      FrameGrows(q, X, Y, stack[i], p[..i + 1]);
    }
    forall i | 0 <= i < |stack| - 1 ensures OnChild(q, table', stack[i], p[..i + 1], stack[i + 1].contact) {
      assert OnChild(q, table, stack[i], p[..i + 1], stack[i + 1].contact);
    }
  }

  lemma StackPops(q: Query, X: set<Path>, table: Table, stack: seq<Frame>)
    requires StackOk(q, X, table, stack) && stack != []
    ensures StackOk(q, X, table, stack[..|stack| - 1])
    ensures Resumable(q, table, stack[..|stack| - 1], true)
  {
    hide FrameOk, ChildCovered;
    var rest := stack[..|stack| - 1];
    forall i | 0 <= i < |rest| ensures FrameOk(q, X, rest[i], PathOf(rest)[..i + 1]) {
      assert PathOf(rest)[..i + 1] == PathOf(stack)[..i + 1];
    }
    forall i | 0 <= i < |rest| - 1 ensures OnChild(q, table, rest[i], PathOf(rest)[..i + 1], rest[i + 1].contact) {
      assert PathOf(rest)[..i + 1] == PathOf(stack)[..i + 1];
      assert OnChild(q, table, stack[i], PathOf(stack)[..i + 1], stack[i + 1].contact);
    }
    if rest != [] {
      var i := |rest| - 1;
      assert PathOf(rest) == PathOf(stack)[..i + 1];
      assert OnChild(q, table, stack[i], PathOf(stack)[..i + 1], stack[i + 1].contact);
    }
  }

  lemma StackPushes(q: Query, X: set<Path>, table: Table, stack: seq<Frame>, f: Frame, child: Frame)
    requires StackOk(q, X, table, stack) && 0 < |stack| < STACK_MAX
    requires f.contact == stack[|stack| - 1].contact && child.contact < |q.cs|
    requires FrameOk(q, X, f, PathOf(stack)) && FrameOk(q, X, child, PathOf(stack) + [child.contact])
    requires OnChild(q, table, f, PathOf(stack), child.contact)
    ensures StackOk(q, X, table, stack[..|stack| - 1] + [f, child])
    ensures PathOf(stack[..|stack| - 1] + [f, child]) == PathOf(stack) + [child.contact]
  {
    hide FrameOk, OnChild;
    var up, p := stack[..|stack| - 1] + [f, child], PathOf(stack);
    assert PathOf(up) == p + [child.contact];
    forall i | 0 <= i < |up| ensures FrameOk(q, X, up[i], PathOf(up)[..i + 1]) {
      if i < |stack| - 1 {
        assert PathOf(up)[..i + 1] == p[..i + 1];
        assert FrameOk(q, X, stack[i], p[..i + 1]);
      } else if i == |stack| - 1 {
        assert PathOf(up)[..i + 1] == p;
      } else {
        assert PathOf(up)[..i + 1] == p + [child.contact];
      }
    }
    forall i | 0 <= i < |up| - 1 ensures OnChild(q, table, up[i], PathOf(up)[..i + 1], up[i + 1].contact) {
      if i < |stack| - 1 {
        assert PathOf(up)[..i + 1] == p[..i + 1];
        assert OnChild(q, table, stack[i], p[..i + 1], stack[i + 1].contact);
      } else {
        assert PathOf(up)[..i + 1] == p;
      }
    }
  }

  /** When the top walk needs no more work, popping it keeps the progress made. */
  lemma PopProgress(q: Query, X: set<Path>, stack: seq<Frame>)
    requires Progress(q, X, stack) && stack != []
    requires Settled(q, X, stack[..|stack| - 1], PathOf(stack))
    ensures Progress(q, X, stack[..|stack| - 1])
  {
    hide Expanded;
    var rest := stack[..|stack| - 1];
    forall r | r in X ensures Settled(q, X, rest, r) {
      assert Settled(q, X, stack, r);
      if OnStack(stack, r) {
        if |r| == |stack| {
          assert PathOf(stack)[..|stack|] == PathOf(stack);
        } else {
          assert PathOf(rest)[..|r|] == PathOf(stack)[..|r|];
        }
      }
    }
  }

  /** Both stacks are well placed and the first has less work left. */
  ghost predicate LessWork(q: Query, stack': seq<Frame>, resumed': bool, stack: seq<Frame>, resumed: bool) {
    Placed(q, stack') && Placed(q, stack) && Work(q, stack', resumed') < Work(q, stack, resumed)
  }

  lemma PushLosesWork(q: Query, stack: seq<Frame>, idx: nat, child: Frame, resumed: bool)
    requires stack != [] && Placed(q, stack) && child.contact < |q.cs| && |stack| < STACK_MAX && child.nextIdx == 0
    requires var f := stack[|stack| - 1]; f.nextIdx + (if resumed then 1 else 0) <= idx < Degree(q, f)
    ensures LessWork(q, stack[..|stack| - 1] + [stack[|stack| - 1].(nextIdx := idx), child], false, stack, resumed)
  {
    hide Work, Below, FrameWork;
    var top := |stack| - 1;
    WorkOfTop(q, stack, resumed);
    PushDecreases(q, stack[..top], stack[top], idx, child, stack[top].nextIdx + if resumed then 1 else 0);
  }

  lemma PopLosesWork(q: Query, stack: seq<Frame>, resumed: bool)
    requires stack != [] && Placed(q, stack)
    ensures LessWork(q, stack[..|stack| - 1], true, stack, resumed)
  {
    hide Work;
    PopDecreases(q, stack, resumed);
  }

  // ---- Expanding the top frame ----

  /** Advance the top frame to its next accepted contact and push it, or pop the frame when
      none is left. Every call does strictly decreasing work: on return to a frame its current
      contact is still covered and is passed over. */
  method ExpandTop(q: Query, stack: seq<Frame>, table: Table, beam: seq<Route>, ghost tr: Trail, ghost resumed: bool)
    returns (outcome: Outcome, stack': seq<Frame>, table': Table, beam': seq<Route>,
             ghost tr': Trail, ghost resumed': bool)
    requires BeamCap(q) >= 1 && |q.cs| <= PLAN_MAX && 0 < |stack| <= Limit(q)
    requires Searching(q, table, beam, tr, stack, resumed) && SeedsUpTo(tr.accepted, stack[0].contact)
    ensures AddsFrom(tr, tr', stack[0].contact)
    ensures stack' != [] ==> stack'[0].contact == stack[0].contact
    ensures outcome == Completed ==> Searching(q, table', beam', tr', stack', resumed')
    ensures outcome == Completed ==> LessWork(q, stack', resumed', stack, resumed)
    ensures outcome == Outcome.Overflow ==> AllAccepted(q, tr'.accepted) && Crowded(q, tr'.accepted)
    ensures outcome == Unpruned ==> AllAccepted(q, tr'.accepted) && Spread(q, tr'.accepted)
  {
    hide Searching, AllAccepted, Crowded, Spread, LessWork, SeedsUpTo, AddsFrom, Work, Below;
    assert Placed(q, stack) by { SearchingParts(q, table, beam, tr, stack, resumed); }
    var step, idx;
    step, idx, table', beam', tr' := AdvanceTop(q, stack, table, beam, tr, resumed);
    var top := |stack| - 1;
    if step.Halt? {
      return step.why, stack, table', beam', tr', resumed;
    }
    outcome := Completed;
    if step.Push? {
      PushLosesWork(q, stack, idx, step.child, resumed);
      stack', resumed' := stack[..top] + [stack[top].(nextIdx := idx), step.child], false;
    } else {
      PopLosesWork(q, stack, resumed);
      stack', resumed' := stack[..top], true;
    }
  }

  /** Scan the top frame's remaining contacts: skip what is ineligible, pruned or delivered, stop
      at the first that becomes a child frame. */
  method AdvanceTop(q: Query, stack: seq<Frame>, table: Table, beam: seq<Route>, ghost tr: Trail, ghost resumed: bool)
    returns (step: Step, idx: nat, table': Table, beam': seq<Route>, ghost tr': Trail)
    requires BeamCap(q) >= 1 && |q.cs| <= PLAN_MAX && 0 < |stack| <= Limit(q)
    requires Searching(q, table, beam, tr, stack, resumed) && SeedsUpTo(tr.accepted, stack[0].contact)
    ensures AddsFrom(tr, tr', stack[0].contact)
    ensures step.Push? ==> var f := stack[|stack| - 1];
      && step.child.contact < |q.cs| && step.child.nextIdx == 0 && |stack| < STACK_MAX && f.contact < |q.cs|
      && f.nextIdx + (if resumed then 1 else 0) <= idx < Degree(q, f)
      && Searching(q, table', beam', tr', stack[..|stack| - 1] + [f.(nextIdx := idx), step.child], false)
    ensures step.Skip? ==> Searching(q, table', beam', tr', stack[..|stack| - 1], true)
    ensures step == Halt(Outcome.Overflow) ==> AllAccepted(q, tr'.accepted) && Crowded(q, tr'.accepted)
    ensures step == Halt(Unpruned) ==> AllAccepted(q, tr'.accepted) && Spread(q, tr'.accepted)
    ensures step != Halt(Completed)
  {
    hide Searching, Advancing, AllAccepted, Crowded, Spread, SeedsUpTo, AddsFrom;
    var top := |stack| - 1;
    TopBounds(q, table, beam, tr, stack, resumed);
    step, table', beam', tr' := Skip, table, beam, tr;
    var to := q.cs[stack[top].contact].to;
    var nxt, n := FromNode(q.cs, to, PLAN_MAX);
    idx := stack[top].nextIdx;
    StartsAdvancing(q, table, beam, tr, stack, resumed);
    while idx < n
      invariant stack[top].nextIdx <= idx <= n
      invariant Advancing(q, table, table', beam', tr, tr', stack, idx, resumed)
    {
      step, table', beam', tr' := TryNext(q, stack, idx, nxt[idx], table, table', beam', tr, tr', resumed);
      if !step.Skip? {
        return;
      }
      idx := idx + 1;
    }
    step := Skip;
    StopsAdvancing(q, table, table', beam', tr, tr', stack, idx, resumed);
  }

  /** The top frame's scan, with the contacts before `idx` behind it. */
  ghost predicate Advancing(q: Query, table: Table, table': Table, beam': seq<Route>, tr: Trail, tr': Trail,
                            stack: seq<Frame>, idx: nat, resumed: bool) {
    && stack != [] && Placed(q, stack) && StackOk(q, tr.accepted, table, stack)
    && Grows(tr, tr') && AddsFrom(tr, tr', stack[0].contact) && SeedsUpTo(tr'.accepted, stack[0].contact)
    && Invariant(q, table', beam', tr') && CoverKept(table, table')
    && FrameOk(q, tr'.accepted, stack[|stack| - 1].(nextIdx := idx), PathOf(stack))
    && Progress(q, tr'.accepted, stack) && stack[|stack| - 1].nextIdx <= idx
    && (resumed && idx == stack[|stack| - 1].nextIdx ==>
          ChildCovered(q, table', PathOf(stack), Current(q, stack[|stack| - 1], PathOf(stack))))
  }

  lemma TopBounds(q: Query, table: Table, beam: seq<Route>, tr: Trail, stack: seq<Frame>, resumed: bool)
    requires Searching(q, table, beam, tr, stack, resumed) && stack != []
    ensures Placed(q, stack) && stack[|stack| - 1].nextIdx <= Degree(q, stack[|stack| - 1])
  {
    hide Searching;
    SearchingParts(q, table, beam, tr, stack, resumed);
  }

  lemma StartsAdvancing(q: Query, table: Table, beam: seq<Route>, tr: Trail, stack: seq<Frame>, resumed: bool)
    requires Searching(q, table, beam, tr, stack, resumed) && stack != [] && SeedsUpTo(tr.accepted, stack[0].contact)
    ensures Advancing(q, table, table, beam, tr, tr, stack, stack[|stack| - 1].nextIdx, resumed)
  {
    hide Searching, StackOk, Invariant, FrameOk, ChildCovered, Progress, CoverKept, SeedsUpTo, AddsFrom;
    AddsNothing(tr, stack[0].contact);
    SearchingParts(q, table, beam, tr, stack, resumed);
    var f := stack[|stack| - 1];
    assert f.(nextIdx := f.nextIdx) == f;
  }

  lemma StopsAdvancing(q: Query, table: Table, table': Table, beam': seq<Route>, tr: Trail, tr': Trail,
                       stack: seq<Frame>, idx: nat, resumed: bool)
    requires Advancing(q, table, table', beam', tr, tr', stack, idx, resumed) && idx == Degree(q, stack[|stack| - 1])
    ensures AddsFrom(tr, tr', stack[0].contact)
    ensures Searching(q, table', beam', tr', stack[..|stack| - 1], true)
  {
    hide Searching, StackOk, Invariant, FrameOk, ChildCovered, Progress, CoverKept, SeedsUpTo, AddsFrom, Settled;
    var top := |stack| - 1;
    TopFrame(q, tr'.accepted, stack[top].(nextIdx := idx), PathOf(stack));
    ExhaustedIsSettled(q, tr'.accepted, stack[top].(nextIdx := idx), PathOf(stack), stack[..top]);
    PopKeepsSearching(q, table, table', beam', tr, tr', stack);
  }

  /** One turn of the scan. */
  method TryNext(q: Query, stack: seq<Frame>, idx: nat, j: nat, table: Table, now: Table, beam: seq<Route>,
                 ghost tr: Trail, ghost before: Trail, ghost resumed: bool)
    returns (step: Step, table': Table, beam': seq<Route>, ghost tr': Trail)
    requires BeamCap(q) >= 1 && |q.cs| <= PLAN_MAX && 0 < |stack| <= Limit(q) && Placed(q, stack)
    requires Advancing(q, table, now, beam, tr, before, stack, idx, resumed)
    requires idx < Degree(q, stack[|stack| - 1])
    requires j == Departures(q.cs, q.cs[stack[|stack| - 1].contact].to)[idx]
    ensures AddsFrom(tr, tr', stack[0].contact)
    ensures step.Skip? ==> Advancing(q, table, table', beam', tr, tr', stack, idx + 1, resumed)
    ensures step.Push? ==> var f := stack[|stack| - 1];
      && step.child.contact < |q.cs| && step.child.nextIdx == 0 && |stack| < STACK_MAX
      && !(resumed && idx == f.nextIdx)
      && Searching(q, table', beam', tr', stack[..|stack| - 1] + [f.(nextIdx := idx), step.child], false)
    ensures step == Halt(Outcome.Overflow) ==> AllAccepted(q, tr'.accepted) && Crowded(q, tr'.accepted)
    ensures step == Halt(Unpruned) ==> AllAccepted(q, tr'.accepted) && Spread(q, tr'.accepted)
    ensures step != Halt(Completed)
  {
    hide Searching, StackOk, Invariant, Handled, FrameOk, ChildCovered, Progress, CoverKept, AllAccepted,
      Crowded, Spread, SeedsUpTo, AddsFrom;
    var top := |stack| - 1;
    var f := stack[top].(nextIdx := idx);
    ghost var p := PathOf(stack);
    DeparturesExact(q.cs, q.cs[f.contact].to);
    TopFrame(q, before.accepted, f, p);
    assert PathOf(stack[top := f]) == p;
    step, table', beam', tr' := TryContact(q, stack[top := f], j, now, beam, before);
    AddsOne(tr, before, tr', p, j, stack[0].contact);
    if step.Halt? {
      return;
    }
    CoverComposes(table, now, table', q, p, j);
    FrameGrows(q, before.accepted, tr'.accepted, f, p);
    if step.Push? {
      PushKeepsSearching(q, table, table', beam', tr, before, tr', stack, idx, step.child);
      return;
    }
    SkipKeepsProgress(q, before.accepted, tr'.accepted, stack, j);
    FrameAdvances(q, tr'.accepted, f, p, j);
  }

  lemma AddsNothing(tr: Trail, seed: nat)
    ensures AddsFrom(tr, tr, seed)
  {
  }

  lemma AddsOne(tr: Trail, before: Trail, tr': Trail, p: Path, j: nat, seed: nat)
    requires AddsFrom(tr, before, seed) && SeedsUpTo(before.accepted, seed) && Grows(before, tr')
    requires p != [] && p[0] == seed
    requires forall r :: r in tr'.accepted ==> r in before.accepted || r == p + [j]
    ensures AddsFrom(tr, tr', seed) && SeedsUpTo(tr'.accepted, seed) && Grows(tr, tr')
  {
  }

  lemma SearchingParts(q: Query, table: Table, beam: seq<Route>, tr: Trail, stack: seq<Frame>, resumed: bool)
    requires Searching(q, table, beam, tr, stack, resumed) && stack != []
    ensures Placed(q, stack) && Invariant(q, table, beam, tr) && StackOk(q, tr.accepted, table, stack)
    ensures Progress(q, tr.accepted, stack) && CoverKept(table, table)
    ensures var f, p := stack[|stack| - 1], PathOf(stack);
      && FrameOk(q, tr.accepted, f, p) && InPlan(q, p) && End(q, p) == q.cs[f.contact].to
      && f.nextIdx <= |Departures(q.cs, End(q, p))|
      && (resumed ==> OnChild(q, table, f, p, Current(q, f, p)))
  {
    hide Invariant, Progress;
    assert PathOf(stack)[..|stack|] == PathOf(stack);
    assert FrameOk(q, tr.accepted, stack[|stack| - 1], PathOf(stack)[..|stack|]);
  }

  lemma PopKeepsSearching(q: Query, table: Table, table': Table, beam': seq<Route>, tr: Trail, tr': Trail,
                          stack: seq<Frame>)
    requires stack != [] && StackOk(q, tr.accepted, table, stack) && Grows(tr, tr') && CoverKept(table, table')
    requires Invariant(q, table', beam', tr') && Progress(q, tr'.accepted, stack)
    requires Settled(q, tr'.accepted, stack[..|stack| - 1], PathOf(stack))
    ensures Searching(q, table', beam', tr', stack[..|stack| - 1], true)
  {
    hide Invariant, Progress, StackOk, Resumable, Settled;
    StackGrows(q, tr.accepted, tr'.accepted, table, table', stack);
    StackPops(q, tr'.accepted, table', stack);
    PopProgress(q, tr'.accepted, stack);
  }

  lemma CoverComposes(a: Table, b: Table, c: Table, q: Query, p: Path, j: nat)
    requires CoverKept(a, b)
    requires CoverKept(b, c)
    ensures CoverKept(a, c)
    ensures ChildCovered(q, b, p, j) ==> ChildCovered(q, c, p, j)
  {
  }

  lemma TopFrame(q: Query, X: set<Path>, f: Frame, p: Path)
    requires FrameOk(q, X, f, p)
    ensures p != [] && InPlan(q, p) && f.contact == p[|p| - 1] < |q.cs| && End(q, p) == q.cs[f.contact].to
    ensures f.nextIdx <= |Departures(q.cs, End(q, p))|
  {
  }

  lemma WorkOfTop(q: Query, stack: seq<Frame>, resumed: bool)
    requires stack != [] && Placed(q, stack)
    ensures var top := |stack| - 1;
      Placed(q, stack[..top]) && Work(q, stack, resumed) == Below(q, stack[..top])
        + FrameWork(q, top, Rest(Degree(q, stack[top]), stack[top].nextIdx + if resumed then 1 else 0))
  {
  }

  lemma FrameAdvances(q: Query, X: set<Path>, f: Frame, p: Path, j: nat)
    requires FrameOk(q, X, f, p) && j < |q.cs| && Handled(q, X, p, j)
    requires f.nextIdx < |Departures(q.cs, End(q, p))| && Departures(q.cs, End(q, p))[f.nextIdx] == j
    ensures FrameOk(q, X, f.(nextIdx := f.nextIdx + 1), p)
  {
    hide Handled, Accepted;
  }

  lemma ExhaustedIsSettled(q: Query, X: set<Path>, f: Frame, p: Path, rest: seq<Frame>)
    requires FrameOk(q, X, f, p) && f.nextIdx == |Departures(q.cs, End(q, p))|
    ensures Settled(q, X, rest, p)
  {
    hide Handled;
    DoneIsExpanded(q, X, p);
  }

  lemma SkipKeepsProgress(q: Query, X: set<Path>, Y: set<Path>, stack: seq<Frame>, j: nat)
    requires Progress(q, X, stack) && X <= Y && j < |q.cs| && InPlan(q, PathOf(stack))
    requires forall r :: r in Y ==> r in X || r == PathOf(stack) + [j]
    requires Y == X || q.cs[j].to == q.dst || |stack| == STACK_MAX
    ensures Progress(q, Y, stack)
  {
    hide Expanded;
    forall r | r in Y && r !in X ensures Settled(q, Y, stack, r) {
      assert r == PathOf(stack) + [j];
    }
    ProgressGrows(q, X, Y, stack, stack);
  }

  lemma PushKeepsSearching(q: Query, table: Table, table': Table, beam': seq<Route>, tr: Trail, before: Trail,
                           tr': Trail, stack: seq<Frame>, idx: nat, child: Frame)
    requires 0 < |stack| < STACK_MAX && StackOk(q, tr.accepted, table, stack)
    requires Grows(tr, before) && Grows(before, tr') && CoverKept(table, table') && Invariant(q, table', beam', tr')
    requires Progress(q, before.accepted, stack)
    requires forall r :: r in tr'.accepted ==> r in before.accepted || r == PathOf(stack) + [child.contact]
    requires var p, f := PathOf(stack), stack[|stack| - 1].(nextIdx := idx);
      && FrameOk(q, tr'.accepted, f, p) && FrameOk(q, tr'.accepted, child, p + [child.contact])
      && child.contact < |q.cs| && OnChild(q, table', f, p, child.contact)
    ensures Searching(q, table', beam', tr', stack[..|stack| - 1] + [stack[|stack| - 1].(nextIdx := idx), child], false)
  {
    hide Invariant, FrameOk, OnChild, Expanded;
    var f := stack[|stack| - 1].(nextIdx := idx);
    StackGrows(q, tr.accepted, tr'.accepted, table, table', stack);
    StackPushes(q, tr'.accepted, table', stack, f, child);
    var up := stack[..|stack| - 1] + [f, child];
    forall r | r in before.accepted && OnStack(stack, r) ensures OnStack(up, r) {
      assert PathOf(up)[..|r|] == PathOf(stack)[..|r|];
    }
    forall r | r in tr'.accepted && r !in before.accepted ensures Settled(q, tr'.accepted, up, r) {
      assert r == PathOf(up) && PathOf(up)[..|up|] == PathOf(up);
      TopFrame(q, tr'.accepted, child, r);
    }
    ProgressGrows(q, before.accepted, tr'.accepted, stack, up);
  }

  // ---- The search from one seed, and the whole search ----

  /** Run the stack machine from a usable seed contact until the stack is empty. */
  method SearchFrom(q: Query, seed: nat, arrival: real, table: Table, beam: seq<Route>, ghost tr: Trail)
    returns (outcome: Outcome, table': Table, beam': seq<Route>, ghost tr': Trail)
    requires BeamCap(q) >= 1 && |q.cs| <= PLAN_MAX && seed < |q.cs|
    requires Searching(q, table, beam, tr, [Frame(seed, 1, arrival, [q.curr], 0)], false)
    requires SeedsUpTo(tr.accepted, seed)
    ensures AddsFrom(tr, tr', seed)
    ensures outcome == Completed ==> Searching(q, table', beam', tr', [], true)
    ensures outcome == Outcome.Overflow ==> AllAccepted(q, tr'.accepted) && Crowded(q, tr'.accepted)
    ensures outcome == Unpruned ==> AllAccepted(q, tr'.accepted) && Spread(q, tr'.accepted)
  {
    hide Invariant, Progress, Work, FrameOk, OnChild, CoverKept, AllAccepted, Crowded, Spread;
    outcome, table', beam', tr' := Completed, table, beam, tr;
    var stack := [Frame(seed, 1, arrival, [q.curr], 0)];
    ghost var resumed := false;
    while stack != []
      invariant outcome == Completed && Searching(q, table', beam', tr', stack, resumed)
      invariant AddsFrom(tr, tr', seed) && SeedsUpTo(tr'.accepted, seed)
      invariant stack != [] ==> stack[0].contact == seed
      decreases Work(q, stack, resumed)
    {
      if stack[|stack| - 1].pathLen > q.cfg.maxHops {
        SearchingParts(q, table', beam', tr', stack, resumed);
        TooDeepIsSettled(q, tr'.accepted, stack);
        PopKeepsSearching(q, table', table', beam', tr', tr', stack);
        PopDecreases(q, stack, resumed);
        stack, resumed := stack[..|stack| - 1], true;
      } else {
        ghost var before := tr';
        WithinLimit(q, table', beam', tr', stack, resumed);
        outcome, stack, table', beam', tr', resumed := ExpandTop(q, stack, table', beam', tr', resumed);
        AddsCompose(tr, before, tr', seed);
        if outcome != Completed {
          return;
        }
      }
    }
  }

  lemma WithinLimit(q: Query, table: Table, beam: seq<Route>, tr: Trail, stack: seq<Frame>, resumed: bool)
    requires Searching(q, table, beam, tr, stack, resumed) && stack != []
    requires stack[|stack| - 1].pathLen <= q.cfg.maxHops
    ensures |stack| <= Limit(q)
  {
    hide Searching, Invariant, Progress;
    SearchingParts(q, table, beam, tr, stack, resumed);
  }

  lemma AddsCompose(tr: Trail, before: Trail, tr': Trail, seed: nat)
    requires AddsFrom(tr, before, seed) && AddsFrom(before, tr', seed) && SeedsUpTo(before.accepted, seed)
    ensures AddsFrom(tr, tr', seed) && SeedsUpTo(tr'.accepted, seed)
  {
  }

  lemma TooDeepIsSettled(q: Query, X: set<Path>, stack: seq<Frame>)
    requires stack != [] && stack[|stack| - 1].pathLen > q.cfg.maxHops
    requires FrameOk(q, X, stack[|stack| - 1], PathOf(stack))
    ensures Settled(q, X, stack[..|stack| - 1], PathOf(stack))
  {
  }

  lemma SeedAccepted(q: Query, table: Table, beam: seq<Route>, tr: Trail, j: nat)
    requires Invariant(q, table, beam, tr) && j < |q.cs| && q.cs[j].frm == q.curr && Usable(q, j, q.t)
    ensures InPlan(q, [j]) && End(q, [j]) == q.cs[j].to && ArriveAt(q, [j]) == HopArrival(q, j, q.t)
    ensures AllAccepted(q, tr.accepted + {[j]}) && TableOk(q, table, tr.accepted + {[j]})
    ensures Accepted(q, [j], tr.accepted + {[j]}) && VisitedOf(q, [j]) == [q.curr]
  {
    hide Usable, HopArrival, HopConf, EntryOk;
    var none: Path := [];
    Extend(q, none, j);
    assert none + [j] == [j];
    var Y := tr.accepted + {[j]};
    TableGrows(q, table, tr.accepted, Y);
    forall r | r in Y ensures Accepted(q, r, Y) {
      if r in tr.accepted {
        assert Accepted(q, r, tr.accepted);
      }
    }
  }

  lemma SeedStarts(q: Query, table: Table, beam: seq<Route>, tr: Trail, j: nat)
    requires Searching(q, table, beam, tr, [], true) && j < |q.cs| && q.cs[j].frm == q.curr
    requires Usable(q, j, q.t) && q.cs[j].to != q.dst
    ensures Searching(q, table, beam, Trail(tr.accepted + {[j]}, tr.pushed),
                      [Frame(j, 1, HopArrival(q, j, q.t), [q.curr], 0)], false)
  {
    hide Usable, HopArrival, Expanded, KBest, BeamOk, TableOk, AllAccepted, FrameOk, Orderly;
    SeedAccepted(q, table, beam, tr, j);
    OrderlySeed(q, table, tr.accepted, j);
    BeamIgnores(q, beam, tr, [j]);
    var Y, f := tr.accepted + {[j]}, Frame(j, 1, HopArrival(q, j, q.t), [q.curr], 0);
    SeedFrame(q, Y, f);
    assert PathOf([f]) == [j] && PathOf([f])[..1] == [j];
    ProgressGrows(q, tr.accepted, Y, [], [f]);
  }

  lemma SeedFrame(q: Query, X: set<Path>, f: Frame)
    requires f.contact < |q.cs| && [f.contact] in X && Accepted(q, [f.contact], X)
    requires q.cs[f.contact].to != q.dst && f.tArrive == ArriveAt(q, [f.contact])
    requires f.pathLen == 1 && f.visited == [q.curr] && f.nextIdx == 0
    ensures FrameOk(q, X, f, [f.contact])
  {
  }

  lemma SeedDelivers(q: Query, table: Table, beam: seq<Route>, beam': seq<Route>, tr: Trail, j: nat)
    requires Searching(q, table, beam, tr, [], true) && j < |q.cs| && q.cs[j].frm == q.curr
    requires Usable(q, j, q.t) && q.cs[j].to == q.dst && InPlan(q, [j])
    requires KBest(beam', BeamCap(q), tr.pushed + multiset{Candidate(q, [j])})
    ensures Searching(q, table, beam', Trail(tr.accepted + {[j]}, tr.pushed + multiset{Candidate(q, [j])}), [], true)
  {
    hide Usable, HopArrival, Expanded, KBest, Candidate, Orderly;
    SeedAccepted(q, table, beam, tr, j);
    OrderlySeed(q, table, tr.accepted, j);
    BeamTakes(q, beam, beam', tr, [j]);
    ProgressGrows(q, tr.accepted, tr.accepted + {[j]}, [], []);
  }

  // ---- Seed by seed ----

  /** The walks accepted from seeds up to `s`. */
  ghost function Upto(X: set<Path>, s: nat): set<Path> { set p | p in X && p != [] && p[0] <= s }

  /** The search went through its seeds in plan order: the walks accepted from any seed and those
      before it were fully explored before the next, and no later one is dominated by them. */
  ghost predicate Staged(q: Query, X: set<Path>) {
    && (forall s: nat {:trigger Upto(X, s)} :: s < |q.cs| && q.cs[s].frm == q.curr ==> Progress(q, Upto(X, s), []))
    && (|Others(q)| <= TABLE_MAX ==> FirstCome(q, X))
  }

  predicate Ascending(js: seq<nat>) { forall x, y :: 0 <= x < y < |js| ==> js[x] < js[y] }

  ghost predicate SeedsBefore(X: set<Path>, seeds: seq<nat>, s: nat) {
    forall p :: p in X ==> p != [] && forall i :: s <= i < |seeds| ==> p[0] < seeds[i]
  }

  ghost predicate StagesDone(q: Query, X: set<Path>, seeds: seq<nat>, s: nat) {
    s <= |seeds| && forall i :: 0 <= i < s ==> Progress(q, Upto(X, seeds[i]), [])
  }

  lemma StageDone(q: Query, X: set<Path>, Y: set<Path>, seeds: seq<nat>, s: nat)
    requires Ascending(seeds) && s < |seeds| && X <= Y && SeedsBefore(X, seeds, s) && StagesDone(q, X, seeds, s)
    requires forall p :: p in Y ==> p in X || (p != [] && p[0] == seeds[s])
    requires Progress(q, Y, [])
    ensures SeedsBefore(Y, seeds, s + 1) && StagesDone(q, Y, seeds, s + 1)
  {
    hide Progress;
    assert Upto(Y, seeds[s]) == Y;
    forall i | 0 <= i < s ensures Progress(q, Upto(Y, seeds[i]), []) {
      assert Upto(Y, seeds[i]) == Upto(X, seeds[i]);
    }
  }

  lemma SeedFollows(X: set<Path>, seeds: seq<nat>, s: nat)
    requires s < |seeds| && SeedsBefore(X, seeds, s)
    ensures SeedsUpTo(X + {[seeds[s]]}, seeds[s])
  {
  }

  /** A table within its bounds holds the frontiers of what was accepted. */
  ghost predicate Tabled(q: Query, X: set<Path>) {
    exists table :: TableOk(q, table, X) && AllCovered(q, table, X)
  }

  /** The search explored everything its pruning allows, and its tables held. */
  ghost predicate Explored(q: Query, tr: Trail) {
    && AllAccepted(q, tr.accepted)
    && (forall j: nat {:trigger SeedTaken(q, tr.accepted, j)} :: j < |q.cs| ==> SeedTaken(q, tr.accepted, j))
    && Progress(q, tr.accepted, []) && Staged(q, tr.accepted) && Tabled(q, tr.accepted)
  }

  /** `route` records an accepted walk to the destination and none costs less. */
  ghost predicate BestOf(q: Query, tr: Trail, route: Route) {
    && (exists p :: p in tr.accepted && InPlan(q, p) && End(q, p) == q.dst && route == Candidate(q, p))
    && (forall p :: p in tr.accepted && InPlan(q, p) && End(q, p) == q.dst ==> route.cost <= Candidate(q, p).cost)
  }

  ghost predicate Answers(q: Query, res: SearchResult, tr: Trail) {
    match res
    case Found(route) => Explored(q, tr) && BestOf(q, tr, route)
    case NoRoute => Explored(q, tr) && forall p :: p in tr.accepted ==> InPlan(q, p) && End(q, p) != q.dst
    case Stopped(why) =>
      || (why == Outcome.Overflow && AllAccepted(q, tr.accepted) && Crowded(q, tr.accepted))
      || (why == Unpruned && AllAccepted(q, tr.accepted) && Spread(q, tr.accepted))
  }

  /** Search from every usable contact leaving the source and pick the cheapest candidate. */
  method Search(q: Query) returns (res: SearchResult, ghost tr: Trail)
    requires q.cfg.maxRoutes >= 1 && |q.cs| <= PLAN_MAX
    ensures Answers(q, res, tr)
  {
    hide Usable, HopArrival, Invariant, AllAccepted, Progress, Crowded, Spread, Candidate, SeedsUpTo, AddsFrom,
      SeedsBefore, StagesDone, SeedTaken;
    var table: Table, beam: seq<Route> := [], [];
    tr := Trail({}, multiset{});
    var seeds, n := FromNode(q.cs, q.curr, PLAN_MAX);
    DeparturesExact(q.cs, q.curr);
    StartsEmpty(q);
    NothingStaged(q, seeds);
    for s := 0 to n
      invariant Searching(q, table, beam, tr, [], true)
      invariant forall i :: 0 <= i < s ==> SeedTaken(q, tr.accepted, seeds[i])
      invariant SeedsBefore(tr.accepted, seeds, s) && StagesDone(q, tr.accepted, seeds, s)
    {
      var j := seeds[s];
      var ok := Admits(q, j, q.t);
      ghost var before := tr;
      if ok {
        var outcome;
        outcome, table, beam, tr := FromSeed(q, j, table, beam, tr, seeds, s);
        if outcome != Completed {
          return Stopped(outcome), tr;
        }
      }
      SeedDone(q, before, tr, j, ok);
      SeedsStayTaken(q, before.accepted, tr.accepted, seeds, s);
      StageOf(q, table, beam, before, tr, seeds, s);
    }
    BeamPart(q, table, beam, tr);
    AllSeedsTaken(q, table, beam, tr);
    if beam == [] {
      NothingPushed(q, table, beam, tr);
      return NoRoute, tr;
    }
    var best := Cheapest(beam);
    CheapestIsBest(q, table, beam, tr, best);
    res := Found(beam[best]);
  }

  /** One usable seed: a direct delivery, or a search of everything behind it. */
  method FromSeed(q: Query, j: nat, table: Table, beam: seq<Route>, ghost tr: Trail,
                  ghost seeds: seq<nat>, ghost s: nat)
    returns (outcome: Outcome, table': Table, beam': seq<Route>, ghost tr': Trail)
    requires BeamCap(q) >= 1 && |q.cs| <= PLAN_MAX && j < |q.cs| && q.cs[j].frm == q.curr && Usable(q, j, q.t)
    requires s < |seeds| && seeds[s] == j && SeedsBefore(tr.accepted, seeds, s)
    requires Searching(q, table, beam, tr, [], true)
    ensures AddsFrom(tr, tr', j) && Grows(tr, tr') && [j] in tr'.accepted
    ensures outcome == Completed ==> Searching(q, table', beam', tr', [], true)
    ensures outcome == Outcome.Overflow ==> AllAccepted(q, tr'.accepted) && Crowded(q, tr'.accepted)
    ensures outcome == Unpruned ==> AllAccepted(q, tr'.accepted) && Spread(q, tr'.accepted)
  {
    hide Usable, HopArrival, Invariant, AllAccepted, Progress, Crowded, Spread, Candidate, SeedsUpTo, SeedsBefore;
    var c := q.cs[j];
    var arrival := ArrivalAtReceiver(c, q.size as real, EarliestStart(c, q.t));
    assert arrival == HopArrival(q, j, q.t) by { HopArrivalIs(q, j, q.t); }
    if c.to == q.dst {
      var cost := ComputeCost(q, [j], arrival);
      var r := Route([j], cost, arrival);
      assert r == Candidate(q, [j]) by { DirectCandidate(q, j); }
      var inserted;
      assert KBest(beam, BeamCap(q), tr.pushed) by { BeamPart(q, table, beam, tr); }
      beam', inserted := CgrBeam.Push(beam, BeamCap(q), r, tr.pushed);
      SeedDelivers(q, table, beam, beam', tr, j);
      outcome, table', tr' := Completed, table, Trail(tr.accepted + {[j]}, tr.pushed + multiset{r});
    } else {
      SeedStarts(q, table, beam, tr, j);
      SeedFollows(tr.accepted, seeds, s);
      outcome, table', beam', tr' := SearchFrom(q, j, arrival, table, beam, Trail(tr.accepted + {[j]}, tr.pushed));
    }
  }

  lemma NothingStaged(q: Query, seeds: seq<nat>)
    ensures SeedsBefore({}, seeds, 0) && StagesDone(q, {}, seeds, 0)
  {
  }

  lemma SeedDone(q: Query, tr: Trail, tr': Trail, j: nat, ok: bool)
    requires j < |q.cs| && (ok <==> Usable(q, j, q.t))
    requires if ok then [j] in tr'.accepted else tr' == tr
    ensures SeedTaken(q, tr'.accepted, j)
  {
    hide Usable;
  }

  lemma SeedsStayTaken(q: Query, X: set<Path>, Y: set<Path>, seeds: seq<nat>, s: nat)
    requires X <= Y && s <= |seeds|
    requires forall i :: 0 <= i < |seeds| ==> seeds[i] < |q.cs|
    requires forall i :: 0 <= i < s ==> SeedTaken(q, X, seeds[i])
    ensures forall i :: 0 <= i < s ==> SeedTaken(q, Y, seeds[i])
  {
    hide Usable;
  }

  lemma StageOf(q: Query, table: Table, beam: seq<Route>, tr: Trail, tr': Trail, seeds: seq<nat>, s: nat)
    requires Ascending(seeds) && s < |seeds|
    requires SeedsBefore(tr.accepted, seeds, s) && StagesDone(q, tr.accepted, seeds, s)
    requires tr' == tr || AddsFrom(tr, tr', seeds[s])
    requires Searching(q, table, beam, tr', [], true)
    ensures SeedsBefore(tr'.accepted, seeds, s + 1) && StagesDone(q, tr'.accepted, seeds, s + 1)
  {
    hide Invariant, Progress, SeedsBefore, StagesDone;
    StageDone(q, tr.accepted, tr'.accepted, seeds, s);
  }

  lemma StartsEmpty(q: Query)
    ensures Searching(q, [], [], Trail({}, multiset{}), [], true)
  {
  }

  lemma HopArrivalIs(q: Query, j: nat, at: real)
    requires j < |q.cs|
    ensures HopArrival(q, j, at) == ArrivalAtReceiver(q.cs[j], q.size as real, EarliestStart(q.cs[j], at))
  {
  }

  lemma DirectCandidate(q: Query, j: nat)
    requires j < |q.cs|
    ensures InPlan(q, [j])
    ensures Candidate(q, [j]) == Route([j], Cost(q, [j], HopArrival(q, j, q.t)), HopArrival(q, j, q.t))
  {
    hide HopArrival, Cost, Usable, ConfOf, MinMargin, VisitedOf, Walk;
    var none, one: Path := [], [j];
    assert one[..0] == none && Kept(one) == one;
    assert ArriveAt(q, one) == HopArrival(q, j, ArriveAt(q, none));
  }

  lemma BeamPart(q: Query, table: Table, beam: seq<Route>, tr: Trail)
    requires Searching(q, table, beam, tr, [], true)
    ensures KBest(beam, BeamCap(q), tr.pushed) && BeamOk(q, beam, tr) && AllAccepted(q, tr.accepted)
  {
    hide KBest, AllAccepted;
  }

  lemma AllSeedsTaken(q: Query, table: Table, beam: seq<Route>, tr: Trail)
    requires Searching(q, table, beam, tr, [], true)
    requires StagesDone(q, tr.accepted, Departures(q.cs, q.curr), |Departures(q.cs, q.curr)|)
    requires forall i :: 0 <= i < |Departures(q.cs, q.curr)| ==>
      Departures(q.cs, q.curr)[i] < |q.cs| && SeedTaken(q, tr.accepted, Departures(q.cs, q.curr)[i])
    ensures Explored(q, tr)
  {
    hide Usable, Progress, FirstCome, AllAccepted, TableOk, BeamOk, AllCovered;
    DeparturesExact(q.cs, q.curr);
    var seeds := Departures(q.cs, q.curr);
    forall j: nat | j < |q.cs|
      ensures SeedTaken(q, tr.accepted, j)
      ensures q.cs[j].frm == q.curr ==> Progress(q, Upto(tr.accepted, j), [])
    {
      if q.cs[j].frm == q.curr {
        var i :| 0 <= i < |seeds| && seeds[i] == j;
      }
    }
  }

  lemma NothingPushed(q: Query, table: Table, beam: seq<Route>, tr: Trail)
    requires BeamOk(q, beam, tr) && beam == [] && BeamCap(q) >= 1 && AllAccepted(q, tr.accepted)
    ensures forall p :: p in tr.accepted ==> InPlan(q, p) && End(q, p) != q.dst
  {
    hide Candidate;
    forall p | p in tr.accepted ensures InPlan(q, p) && End(q, p) != q.dst {
      assert Accepted(q, p, tr.accepted);
    }
  }

  lemma CheapestIsBest(q: Query, table: Table, beam: seq<Route>, tr: Trail, best: nat)
    requires BeamOk(q, beam, tr) && best < |beam|
    requires forall k :: 0 <= k < |beam| ==> beam[best].cost <= beam[k].cost
    ensures BestOf(q, tr, beam[best])
  {
    hide Candidate;
    var pushed := tr.pushed;
    assert beam[best] in multiset(beam);
    assert beam[best] in pushed;
    forall p | p in tr.accepted && InPlan(q, p) && End(q, p) == q.dst
      ensures beam[best].cost <= Candidate(q, p).cost
    {
      CheapestOfAll(beam, BeamCap(q), pushed, best, Candidate(q, p));
    }
  }
}
