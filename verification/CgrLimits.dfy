/** How far the search's tables reach. Plans that overrun a frontier or the frontier table exist
    just past the bounds, and on them every answer is the corresponding stop. */
module CgrLimits {
  import opened Bundles
  import opened Contacts
  import opened CgrModel
  import opened CgrFrontier
  import opened CgrSearch
  import opened CgrTheorems
  import opened CgrMargin

  // ---- Nine signatures do not fit ----

  lemma {:induction false} ElementCount<T>(s: seq<T>)
    ensures |set x | x in s| <= |s|
  {
    if s == [] {
    } else {
      var pre, last := s[..|s| - 1], s[|s| - 1];
      ElementCount(pre);
      assert (set x | x in s) == (set x | x in pre) + {last};
    }
  }

  /** `p` is accepted, filed at `n`, and dominated there by nothing accepted but its equals. */
  ghost predicate Peak(q: Query, X: set<Path>, n: NodeId, p: Path) {
    && p in X && Filed(q, p) && End(q, p) == n
    && forall r :: r in X && |r| >= 2 && InPlan(q, r) && End(q, r) == n && Dominates(SigOf(q, r), SigOf(q, p)) ==>
         SigOf(q, r) == SigOf(q, p)
  }

  lemma PeakInTable(q: Query, X: set<Path>, table: Table, n: NodeId, p: Path, a: nat)
    requires TableOk(q, table, X) && AllCovered(q, table, X) && Peak(q, X, n, p)
    requires a < |table| && table[a].node == n
    ensures SigOf(q, p) in table[a].sigs
  {
    hide SigOf;
    var b :| 0 <= b < |table| && table[b].node == n && Covered(table[b].sigs, SigOf(q, p));
    assert a == b && EntryOk(q, X, table[a]);
    var k :| 0 <= k < |table[a].sigs| && Dominates(table[a].sigs[k], SigOf(q, p));
    assert Witnessed(q, X, n, table[a].sigs[k]);
  }

  ghost predicate NinePeaks(q: Query, X: set<Path>, n: NodeId, ps: seq<Path>) {
    && |ps| == FRONTIER_MAX + 1 && (forall i :: 0 <= i < |ps| ==> Peak(q, X, n, ps[i]))
    && forall i, j :: 0 <= i < j < |ps| ==> SigOf(q, ps[i]) != SigOf(q, ps[j])
  }

  /** No finished search accepts nine peaks at one node. */
  lemma NinePeaksOverflow(q: Query, tr: Trail, n: NodeId, ps: seq<Path>)
    requires NinePeaks(q, tr.accepted, n, ps)
    ensures !Explored(q, tr)
  {
    hide SigOf, Filed, Explored, Peak, TableOk, AllCovered;
    if Explored(q, tr) {
      var X := tr.accepted;
      var table := FinalTable(q, tr);
      PeakFiled(q, X, n, ps[0]);
      var a := EntryAt(q, X, table, n, ps[0]);
      var sigs := seq(|ps|, i requires 0 <= i < |ps| => SigOfPeak(q, X, n, ps[i]));
      forall i | 0 <= i < |ps| ensures sigs[i] in table[a].sigs {
        PeakInTable(q, X, table, n, ps[i], a);
      }
      TooMany(q, X, table, a, sigs);
    }
  }

  lemma PeakFiled(q: Query, X: set<Path>, n: NodeId, p: Path)
    requires Peak(q, X, n, p)
    ensures p in X && Filed(q, p) && End(q, p) == n
  {
  }

  lemma TooMany(q: Query, X: set<Path>, table: Table, a: nat, sigs: seq<Sig>)
    requires TableOk(q, table, X) && a < |table| && NoDup(sigs)
    requires forall i :: 0 <= i < |sigs| ==> sigs[i] in table[a].sigs
    ensures |sigs| <= FRONTIER_MAX
  {
    assert EntryOk(q, X, table[a]);
    hide EntryOk, TableOk;
    DistinctCount(sigs, set s | s in table[a].sigs);
    ElementCount(table[a].sigs);
  }

  ghost function SigOfPeak(q: Query, X: set<Path>, n: NodeId, p: Path): Sig
    requires Peak(q, X, n, p)
  {
    SigOf(q, p)
  }

  lemma EntryAt(q: Query, X: set<Path>, table: Table, n: NodeId, p: Path) returns (a: nat)
    requires AllCovered(q, table, X) && p in X && Filed(q, p) && End(q, p) == n
    ensures a < |table| && table[a].node == n
  {
    hide SigOf;
    assert CoveredAt(table, n, SigOf(q, p));
    a :| 0 <= a < |table| && table[a].node == n && Covered(table[a].sigs, SigOf(q, p));
  }

  lemma FinalTable(q: Query, tr: Trail) returns (table: Table)
    requires Explored(q, tr)
    ensures TableOk(q, table, tr.accepted) && AllCovered(q, table, tr.accepted)
  {
    hide TableOk, AllCovered;
    table :| TableOk(q, table, tr.accepted) && AllCovered(q, table, tr.accepted);
  }

  /** No finished search goes on from nine different nodes. */
  lemma NineNodesOverflow(q: Query, tr: Trail, ps: seq<Path>, ns: seq<NodeId>)
    requires |ps| == |ns| == TABLE_MAX + 1 && NoDup(ns)
    requires forall i :: 0 <= i < |ps| ==> ps[i] in tr.accepted && Filed(q, ps[i]) && End(q, ps[i]) == ns[i]
    ensures !Explored(q, tr)
  {
    hide SigOf, AllCovered, Explored;
    if Explored(q, tr) {
      var X := tr.accepted;
      var table := FinalTable(q, tr);
      var held: seq<NodeId> := seq(|table|, b requires 0 <= b < |table| => table[b].node);
      forall i | 0 <= i < |ps| ensures ns[i] in held {
        var a := EntryAt(q, X, table, ns[i], ps[i]);
        assert held[a] == ns[i];
      }
      DistinctCount(ns, set v | v in held);
      ElementCount(held);
    }
  }

  // ---- Plans of two stages: contacts 1 -> 2, then contacts 2 -> 3 ----

  ghost predicate TwoStages(q: Query, a: nat) {
    && 1 <= a <= |q.cs| && q.curr == 1 && q.dst == 3
    && forall j {:trigger q.cs[j]} :: 0 <= j < |q.cs| ==>
         if j < a then q.cs[j].frm == 1 && q.cs[j].to == 2 else q.cs[j].frm == 2 && q.cs[j].to == 3
  }

  lemma StageWalk(q: Query, a: nat, X: set<Path>, p: Path)
    requires TwoStages(q, a) && AllAccepted(q, X) && p in X && |p| >= 2
    ensures InPlan(q, p) && |p| == 2 && p[0] < a <= p[1] < |q.cs| && p == [p[0], p[1]]
  {
    hide Usable;
    assert Accepted(q, p, X);
    var n := |p| - 1;
    var pre := p[..n];
    assert q.cs[p[n]].frm == End(q, pre) && pre[n - 1] == p[n - 1];
    assert q.cs[pre[n - 1]].to == 2 && p[n - 1] < a <= p[n];
    assert Walk(q, pre);
    var first := pre[..n - 1];
    assert q.cs[pre[n - 1]].frm == End(q, first);
    assert first == [];
  }

  lemma StageReceivers(q: Query, a: nat)
    requires TwoStages(q, a) && a < |q.cs|
    ensures Others(q) == {2, 3} && |Others(q)| == 2
    ensures forall n {:trigger Into(q, n)} :: |Into(q, n)| <= if n == 2 then a else if n == 3 then |q.cs| - a else 0
  {
    assert q.cs[0].to == 2 && q.cs[a].to == 3;
    forall x | x in Others(q) ensures x in {2, 3} {
    }
    forall n ensures |Into(q, n)| <= if n == 2 then a else if n == 3 then |q.cs| - a else 0 {
      if n == 2 {
        WithinRange(Into(q, n), 0, a);
      } else if n == 3 {
        WithinRange(Into(q, n), a, |q.cs|);
      } else {
        assert Into(q, n) == {};
      }
    }
  }

  lemma {:induction false} WithinRange(s: set<nat>, lo: nat, hi: nat)
    requires lo <= hi && forall j :: j in s ==> lo <= j < hi
    ensures |s| <= hi - lo
    decreases hi - lo
  {
    if lo == hi {
      assert s == {};
    } else {
      WithinRange(s - {lo}, lo + 1, hi);
    }
  }

  /** A finished search matched every two-hop walk it could take. */
  lemma StageMatched(q: Query, a: nat, tr: Trail, i: nat, k: nat)
    requires TwoStages(q, a) && Explored(q, tr) && q.cfg.maxHops >= 1 && i < a <= k < |q.cs|
    requires Usable(q, i, q.t) && Usable(q, k, HopArrival(q, i, q.t))
    ensures InPlan(q, [i, k]) && Matched(q, tr.accepted, [i, k])
  {
    hide Usable, HopArrival, HopConf, HopMargin;
    var none: Path, one: Path, X := [], [i], tr.accepted;
    var empty: seq<Frame> := [];
    Extend(q, none, i);
    assert none + one == one && one + [k] == [i, k];
    assert SeedTaken(q, X, i) && Settled(q, X, empty, one);
    assert VisitedOf(q, one) == [1];
    assert Handled(q, X, one, k);
  }

  // ---- Nine contacts into one node ----

  function Seed(start: real, conf: real): Contact {
    Contact(1, 2, start, start + 2.0, 100.0, 0.0, conf, 0.0, Up, 0.0, 0.0)
  }

  function Pass(start: real, end: real): Contact {
    Contact(2, 3, start, end, 100.0, 0.0, 1.0, 0.0, Up, 0.0, 0.0)
  }

  /** One certain contact to node 2, then nine into node 3, each later and longer than the last. */
  function NinePlan(): seq<Contact> {
    [Seed(0.0, 1.0)]
    + seq(9, k requires 0 <= k < 9 => Pass(k as real + 2.0, 2.0 * k as real + 13.0))
  }

  function NineQuery(cfg: Config, ln: real -> real): Query { Query(NinePlan(), 100, 1, 3, 1000.0, 0.0, cfg, ln) }

  ghost predicate Nine(q: Query) { q == NineQuery(q.cfg, q.ln) && q.cfg.maxHops >= 1 }

  function NineSig(k: nat): Sig { Sig(k as real + 2.0, 1.0, 900.0 + 100.0 * k as real) }

  lemma NineHop(q: Query, k: nat)
    requires Nine(q) && 1 <= k <= 9
    ensures |q.cs| == 10 && Usable(q, 0, 0.0) && HopArrival(q, 0, 0.0) == 1.0 && Usable(q, k, 1.0)
    ensures HopArrival(q, k, 1.0) == k as real + 2.0 && HopMargin(q, k, 1.0) == 900.0 + 100.0 * k as real
    ensures q.cs[0].conf == 1.0 && q.cs[k].conf == 1.0
  {
    assert q.cs[k] == Pass(k as real + 1.0, 2.0 * k as real + 11.0);
  }

  lemma NineShape(q: Query)
    requires Nine(q)
    ensures TwoStages(q, 1) && |q.cs| == 10 && PlanOk(q) && AllCertain(q)
  {
  }

  ghost predicate AllCertain(q: Query) { forall j {:trigger q.cs[j]} :: 0 <= j < |q.cs| ==> q.cs[j].conf == 1.0 }

  lemma TwoHopWalk(q: Query, i: nat, k: nat)
    requires i < |q.cs| && k < |q.cs| && q.cs[i].frm == q.curr && q.cs[k].frm == q.cs[i].to
    requires Usable(q, i, q.t) && Usable(q, k, HopArrival(q, i, q.t))
    ensures InPlan(q, [i]) && Walk(q, [i]) && End(q, [i]) == q.cs[i].to && ArriveAt(q, [i]) == HopArrival(q, i, q.t)
    ensures InPlan(q, [i, k]) && Walk(q, [i, k]) && End(q, [i, k]) == q.cs[k].to && [i, k][..1] == [i]
    ensures VisitedOf(q, [i]) == [q.curr] && VisitedOf(q, [i, k]) == [q.curr, q.cs[k].to]
    ensures SigOf(q, [i, k]) == Sig(HopArrival(q, k, HopArrival(q, i, q.t)), HopConf(q, k, HopConf(q, i, 1.0)),
                                    HopMargin(q, k, HopArrival(q, i, q.t)))
  {
    hide Usable, HopArrival, HopConf, HopMargin;
    var none: Path := [];
    Extend(q, none, i);
    assert none + [i] == [i] && [i] + [k] == [i, k];
    Extend(q, [i], k);
  }

  lemma NineWalk(q: Query, k: nat)
    requires Nine(q) && 1 <= k <= 9
    ensures |q.cs| == 10 && Usable(q, 0, q.t) && Usable(q, k, HopArrival(q, 0, q.t))
    ensures InPlan(q, [0, k]) && Walk(q, [0, k]) && End(q, [0, k]) == 3 && SigOf(q, [0, k]) == NineSig(k)
    ensures InPlan(q, [0]) && Walk(q, [0]) && End(q, [0]) == 2 && [0, k][..1] == [0]
    ensures VisitedOf(q, [0]) == [1] && VisitedOf(q, [0, k]) == [1, 3]
  {
    hide Usable, HopArrival, HopMargin;
    NineShape(q);
    NineHop(q, k);
    TwoHopWalk(q, 0, k);
  }

  /** Every answer on this plan is the overflow of node 3's frontier. */
  lemma NineAlwaysOverflow(q: Query, res: SearchResult, tr: Trail)
    requires Nine(q) && Answers(q, res, tr)
    ensures res == Stopped(Outcome.Overflow)
  {
    hide Usable, HopArrival, SigOf, Walk, Peak;
    NineShape(q);
    StageReceivers(q, 1);
    if Explored(q, tr) {
      var ps: seq<Path> := seq(9, i requires 0 <= i < 9 => [0, i + 1]);
      forall i | 0 <= i < 9 ensures Peak(q, tr.accepted, 3, ps[i]) && SigOf(q, ps[i]) == NineSig(i + 1) {
        NinePeak(q, tr, i + 1);
      }
      assert NinePeaks(q, tr.accepted, 3, ps);
      NinePeaksOverflow(q, tr, 3, ps);
    }
    if res == Stopped(Unpruned) {
      SpreadNeedsReceivers(q, tr.accepted);
    }
  }

  lemma NinePeak(q: Query, tr: Trail, k: nat)
    requires Nine(q) && Explored(q, tr) && 1 <= k <= 9
    ensures Peak(q, tr.accepted, 3, [0, k]) && SigOf(q, [0, k]) == NineSig(k)
  {
    hide Usable, HopArrival, SigOf, Walk, Explored, TwoStages, NineSig, Dominates;
    var X := tr.accepted;
    NineShape(q);
    StageReceivers(q, 1);
    ExploredAccepts(q, tr);
    NineWalk(q, k);
    StageMatched(q, 1, tr, 0, k);
    forall r | r in X && |r| >= 2 && InPlan(q, r) && End(q, r) == 3 && Dominates(SigOf(q, r), SigOf(q, [0, k]))
      ensures r == [0, k]
    {
      StageWalk(q, 1, X, r);
      NineWalk(q, r[1]);
      NineIncomparable(r[1], k);
    }
  }

  lemma NineIncomparable(j: nat, k: nat)
    requires Dominates(NineSig(j), NineSig(k))
    ensures j == k
  {
  }

  // ---- Eight contacts into every node, confidences mixed ----

  /** Eight contacts to node 2, each later and surer than the last; then a contact to node 3 that
      is open at once and one that opens later with more room. */
  function MixedPlan(): seq<Contact> {
    seq(8, i requires 0 <= i < 8 => Seed(i as real, (i + 1) as real / 8.0))
    + [Pass(0.0, 100.0), Pass(50.0, 1000.0)]
  }

  function MixedQuery(cfg: Config, ln: real -> real): Query { Query(MixedPlan(), 100, 1, 3, 10000.0, 0.0, cfg, ln) }

  ghost predicate Mixed(q: Query) { q == MixedQuery(q.cfg, q.ln) && q.cfg.maxHops >= 1 }

  function MixedSig(i: nat, k: nat): Sig {
    if k == 8 then Sig(i as real + 2.0, (i + 1) as real / 8.0, 9800.0 - 100.0 * i as real)
    else Sig(51.0, (i + 1) as real / 8.0, 94900.0)
  }

  lemma MixedShape(q: Query)
    requires Mixed(q)
    ensures TwoStages(q, 8) && |q.cs| == 10 && PlanOk(q)
  {
  }

  lemma MixedHop(q: Query, i: nat, k: nat)
    requires Mixed(q) && i < 8 && 8 <= k < 10
    ensures |q.cs| == 10 && Usable(q, i, 0.0) && HopArrival(q, i, 0.0) == i as real + 1.0
    ensures Usable(q, k, i as real + 1.0) && HopArrival(q, k, i as real + 1.0) == MixedSig(i, k).tArrive
    ensures HopMargin(q, k, i as real + 1.0) == MixedSig(i, k).margin
    ensures HopConf(q, k, HopConf(q, i, 1.0)) == MixedSig(i, k).conf
  {
    assert q.cs[i] == Seed(i as real, (i + 1) as real / 8.0);
  }

  lemma MixedWalk(q: Query, i: nat, k: nat)
    requires Mixed(q) && i < 8 && 8 <= k < 10
    ensures |q.cs| == 10 && Usable(q, i, q.t) && Usable(q, k, HopArrival(q, i, q.t))
    ensures InPlan(q, [i, k]) && End(q, [i, k]) == 3 && SigOf(q, [i, k]) == MixedSig(i, k)
  {
    hide Usable, HopArrival, HopMargin, HopConf;
    MixedShape(q);
    MixedHop(q, i, k);
    TwoHopWalk(q, i, k);
  }

  lemma MixedIncomparable(i: nat, k: nat, j: nat, m: nat)
    requires i < 8 && j < 8 && 8 <= k < 10 && 8 <= m < 10 && Dominates(MixedSig(i, k), MixedSig(j, m))
    ensures m == 8 || j == 7 ==> i == j && k == m
  {
  }

  lemma MixedPeak(q: Query, tr: Trail, i: nat, k: nat)
    requires Mixed(q) && Explored(q, tr) && i < 8 && (k == 8 || (i == 7 && k == 9))
    ensures Peak(q, tr.accepted, 3, [i, k]) && SigOf(q, [i, k]) == MixedSig(i, k)
  {
    hide Usable, HopArrival, SigOf, Walk, Explored, TwoStages, MixedSig, Dominates;
    var X := tr.accepted;
    MixedShape(q);
    StageReceivers(q, 8);
    ExploredAccepts(q, tr);
    MixedWalk(q, i, k);
    StageMatched(q, 8, tr, i, k);
    forall r | r in X && |r| >= 2 && InPlan(q, r) && End(q, r) == 3 && Dominates(SigOf(q, r), SigOf(q, [i, k]))
      ensures r == [i, k]
    {
      StageWalk(q, 8, X, r);
      MixedWalk(q, r[0], r[1]);
      MixedIncomparable(r[0], r[1], i, k);
    }
  }

  /** With mixed confidences eight contacts into a node are already too many for its frontier:
      every answer on this plan is an overflow. */
  lemma MixedAlwaysOverflows(q: Query, res: SearchResult, tr: Trail)
    requires Mixed(q) && Answers(q, res, tr)
    ensures res == Stopped(Outcome.Overflow) && |Others(q)| == 2 && forall n :: |Into(q, n)| <= FRONTIER_MAX
  {
    hide Usable, HopArrival, SigOf, Walk, Peak;
    MixedShape(q);
    StageReceivers(q, 8);
    if Explored(q, tr) {
      var ps: seq<Path> := seq(9, i requires 0 <= i < 9 => if i < 8 then [i, 8] else [7, 9]);
      forall i | 0 <= i < 9 ensures Peak(q, tr.accepted, 3, ps[i])
        ensures SigOf(q, ps[i]) == if i < 8 then MixedSig(i, 8) else MixedSig(7, 9)
      {
        MixedPeak(q, tr, if i < 8 then i else 7, if i < 8 then 8 else 9);
      }
      assert NinePeaks(q, tr.accepted, 3, ps);
      NinePeaksOverflow(q, tr, 3, ps);
    }
    if res == Stopped(Unpruned) {
      SpreadNeedsReceivers(q, tr.accepted);
    }
  }

  // ---- Nine receivers ----

  function Link(frm: NodeId, to: NodeId): Contact { Contact(frm, to, 0.0, 1000.0, 100.0, 0.0, 1.0, 0.0, Up, 0.0, 0.0) }

  /** The nodes behind the hub. */
  function Leaf(k: nat): NodeId {
    if k == 1 then 3 else if k == 2 then 4 else if k == 3 then 5 else if k == 4 then 6
    else if k == 5 then 7 else if k == 6 then 8 else if k == 7 then 9 else 10
  }

  /** A hub reached from the source, eight nodes behind it, and a way back from the first of them. */
  function StarPlan(): seq<Contact> {
    [Link(1, 2)] + seq(8, k requires 0 <= k < 8 => Link(2, Leaf(k + 1))) + [Link(3, 2)]
  }

  /** No contact leads to the destination. */
  function StarQuery(cfg: Config, ln: real -> real): Query { Query(StarPlan(), 100, 1, 99, 1000.0, 0.0, cfg, ln) }

  ghost predicate Star(q: Query) { q == StarQuery(q.cfg, q.ln) && q.cfg.maxHops >= 2 }

  lemma LeafInjective(i: nat, k: nat)
    requires 1 <= i <= 8 && 1 <= k <= 8
    ensures Leaf(i) == Leaf(k) ==> i == k
    ensures Leaf(k) != 1 && Leaf(k) != 2 && Leaf(k) != 99
  {
  }

  lemma FirstLeaf()
    ensures Leaf(1) == 3
  {
  }

  lemma StarContacts(q: Query)
    requires Star(q)
    ensures |q.cs| == 10 && q.cs[0] == Link(1, 2) && q.cs[9] == Link(3, 2)
    ensures forall k {:trigger q.cs[k]} :: 1 <= k <= 8 ==> q.cs[k] == Link(2, Leaf(k))
    ensures PlanOk(q) && AllCertain(q)
  {
    hide Leaf;
  }

  lemma StarReceivers(q: Query)
    requires Star(q)
    ensures |Others(q)| <= 9
  {
    StarContacts(q);
    hide StarPlan, StarQuery, Star, PlanOk, AllCertain, Leaf;
    var receivers: seq<NodeId> := seq(9, i requires 0 <= i < 9 => StarNode(i));
    forall x | x in Others(q) ensures x in receivers {
      var j :| 0 <= j < |q.cs| && q.cs[j].to == x;
      assert x == receivers[if j < 9 then j else 0];
    }
    ElementCount(receivers);
    SubsetSize(Others(q), set x | x in receivers);
  }

  /** The nine receivers, hub first. */
  function StarNode(i: nat): NodeId { if i == 0 then 2 else Leaf(i) }

  lemma StarInto(q: Query, n: NodeId)
    requires Star(q)
    ensures |Into(q, n)| <= 2
  {
    StarContacts(q);
    hide StarPlan, StarQuery, Star, PlanOk, AllCertain, Leaf;
    forall i, j | i in Into(q, n) && j in Into(q, n) && n != 2 ensures i == j {
      LeafInjective(if 1 <= i <= 8 then i else 1, if 1 <= j <= 8 then j else 1);
    }
    forall i | i in Into(q, 2) ensures i in {0, 9} {
      LeafInjective(1, if 1 <= i <= 8 then i else 1);
    }
    if n == 2 {
      PairSize(Into(q, 2), 0, 9);
    } else {
      AtMostOne(Into(q, n));
    }
  }

  lemma PairSize<T>(s: set<T>, x: T, y: T)
    requires s <= {x, y}
    ensures |s| <= 2
  {
    var rest := s - {x};
    assert rest <= {y};
    AtMostOne(rest);
    assert |s| <= |rest| + 1;
  }

  lemma AtMostOne<T>(s: set<T>)
    requires forall x, y :: x in s && y in s ==> x == y
    ensures |s| <= 1
  {
    if x :| x in s {
      assert s == {x};
    }
  }

  lemma LinkHop(q: Query, j: nat, at: real)
    requires Star(q) && j < 10 && 0.0 <= at <= 100.0
    ensures |q.cs| == 10 && Usable(q, j, at) && HopArrival(q, j, at) == at + 1.0
  {
    StarContacts(q);
    hide StarPlan, StarQuery, Star, PlanOk, AllCertain, Leaf;
    assert exists a, b :: q.cs[j] == Link(a, b);
  }

  lemma StarWalk(q: Query, k: nat)
    requires Star(q) && 1 <= k <= 8
    ensures |q.cs| == 10 && InPlan(q, [0]) && End(q, [0]) == 2 && ArriveAt(q, [0]) == 1.0 && VisitedOf(q, [0]) == [1]
    ensures InPlan(q, [0, k]) && End(q, [0, k]) == Leaf(k) && ArriveAt(q, [0, k]) == 2.0
    ensures VisitedOf(q, [0, k]) == [1, Leaf(k)] && Walk(q, [0]) && Walk(q, [0, k]) && [0, k][..1] == [0]
    ensures Eligible(q, [0], k)
  {
    hide Usable, HopArrival, Leaf;
    StarContacts(q);
    LeafInjective(k, k);
    LinkHop(q, 0, 0.0);
    LinkHop(q, k, 1.0);
    hide StarPlan, StarQuery, PlanOk, AllCertain;
    var none: Path := [];
    Extend(q, none, 0);
    assert none + [0] == [0] && [0] + [k] == [0, k];
    Extend(q, [0], k);
  }

  /** The first leaf is reached over the hub only. */
  lemma FirstLeafWalk(q: Query, X: set<Path>, r: Path)
    requires Star(q) && AllAccepted(q, X) && r in X && InPlan(q, r) && |r| >= 2 && End(q, r) == 3
    ensures r == [0, 1]
  {
    hide Usable, HopArrival, VisitedOf, NoDup, Star;
    LeafContacts(q);
    assert Accepted(q, r, X);
    var n := |r| - 1;
    var pre := r[..n];
    var pre' := pre[..n - 1];
    LastHops(q, r, pre, pre');
    if r[n - 1] == 9 {
      LeafVisited(q, r, pre, pre');
    } else {
      SourceUnreached(q, pre');
    }
  }

  /** Only contact 1 leads to the first leaf, and only contacts 0 and 9 to the hub. */
  lemma LeafContacts(q: Query)
    requires Star(q)
    ensures q.curr == 1 && |q.cs| == 10 && q.cs[0].frm == 1 && q.cs[1].frm == 2 && q.cs[9].frm == 3
    ensures forall j {:trigger q.cs[j]} :: 0 <= j < |q.cs| ==>
      q.cs[j].to != 1 && (q.cs[j].to == 3 ==> j == 1) && (q.cs[j].to == 2 ==> j == 0 || j == 9)
  {
    StarContacts(q);
    FirstLeaf();
    hide StarPlan, StarQuery, Star, PlanOk, AllCertain, Leaf;
    forall j | 1 <= j <= 8 ensures q.cs[j].to != 1 && q.cs[j].to != 2 && (q.cs[j].to == 3 ==> j == 1) {
      LeafInjective(j, 1);
    }
  }

  lemma LastHops(q: Query, r: Path, pre: Path, pre': Path)
    requires Star(q) && InPlan(q, r) && Walk(q, r) && |r| >= 2 && End(q, r) == 3
    requires pre == r[..|r| - 1] && pre' == pre[..|pre| - 1]
    ensures r[|r| - 1] == 1 && (r[|r| - 2] == 0 || r[|r| - 2] == 9) && r == pre' + [r[|r| - 2], 1]
    ensures InPlan(q, pre') && Walk(q, pre') && End(q, pre') == if r[|r| - 2] == 0 then 1 else 3
  {
    hide Usable, HopArrival, Star;
    LeafContacts(q);
    assert q.cs[r[|r| - 1]].frm == End(q, pre);
    assert Walk(q, pre) && pre[|pre| - 1] == r[|r| - 2];
    assert q.cs[pre[|pre| - 1]].frm == End(q, pre');
  }

  lemma SourceUnreached(q: Query, p: Path)
    requires Star(q) && InPlan(q, p) && End(q, p) == 1
    ensures p == []
  {
    hide Star;
    LeafContacts(q);
  }

  /** Back from the leaf to the hub, the leaf is a visited node. */
  lemma LeafVisited(q: Query, r: Path, pre: Path, pre': Path)
    requires InPlan(q, r) && q.curr == 1 && |r| >= 2 && pre == r[..|r| - 1] && pre' == pre[..|pre| - 1]
    requires End(q, r) == 3 && End(q, pre') == 3 && forall j :: 0 <= j < |q.cs| && q.cs[j].to == 3 ==> q.cs[j].frm == 2
    requires Walk(q, r)
    ensures !NoDup(VisitedOf(q, r))
  {
    hide Usable, HopArrival;
    var n := |pre'|;
    assert Walk(q, pre) && Walk(q, pre');
    assert n >= 2;
    VisitedAt(q, r, n - 1);
    VisitedAt(q, r, |r| - 1);
    assert r[n - 1] == pre'[n - 1];
  }

  /** An accepted walk of two hops or more is short and misses the destination: it holds a place. */
  lemma StarFiled(q: Query, X: set<Path>, p: Path)
    requires Star(q) && AllAccepted(q, X) && p in X && InPlan(q, p) && |p| >= 2
    ensures Filed(q, p)
  {
    hide Usable, HopArrival;
    WalksAreShort(q, X, p);
    StarReceivers(q);
    StarContacts(q);
    hide StarPlan, StarQuery, Star, PlanOk, AllCertain, Leaf;
    var j := p[|p| - 1];
    if 1 <= j <= 8 {
      LeafInjective(j, j);
    }
  }

  /** A finished search would go on from each of the nine receivers. */
  lemma StarReached(q: Query, tr: Trail, i: nat) returns (p: Path)
    requires Star(q) && Explored(q, tr) && i < 9
    ensures p in tr.accepted && Filed(q, p) && End(q, p) == StarNode(i)
  {
    hide Usable, HopArrival, SigOf, Filed, Leaf, Explored, Eligible;
    var X := tr.accepted;
    ExploredAccepts(q, tr);
    StarWalk(q, if i == 0 then 1 else i);
    HubLeads(q, tr, if i == 0 then 1 else i);
    if i > 0 {
      p :| p in X && |p| >= 2 && InPlan(q, p) && End(q, p) == Leaf(i);
    } else {
      FirstLeaf();
      var r :| r in X && |r| >= 2 && InPlan(q, r) && End(q, r) == 3;
      FirstLeafWalk(q, X, r);
      WayBack(q, tr);
      p :| p in X && |p| >= 2 && InPlan(q, p) && End(q, p) == 2;
    }
    StarFiled(q, X, p);
  }

  lemma HubLeads(q: Query, tr: Trail, k: nat)
    requires Star(q) && Explored(q, tr) && 1 <= k <= 8
    ensures EndsAt(q, tr.accepted, Leaf(k))
  {
    hide Usable, HopArrival, SigOf, Leaf, Eligible;
    var X, empty: seq<Frame> := tr.accepted, [];
    LinkHop(q, 0, 0.0);
    StarWalk(q, k);
    StarContacts(q);
    hide StarPlan, StarQuery, PlanOk, AllCertain;
    assert SeedTaken(q, X, 0) && Settled(q, X, empty, [0]);
    assert q.cs[k].frm == End(q, [0]) && Handled(q, X, [0], k);
    assert [0] + [k] == [0, k];
    var r :| r in X && |r| >= 2 && InPlan(q, r) && End(q, r) == End(q, [0, k])
      && Dominates(SigOf(q, r), SigOf(q, [0, k]));
  }

  lemma WayBack(q: Query, tr: Trail)
    requires Star(q) && Explored(q, tr) && [0, 1] in tr.accepted
    ensures EndsAt(q, tr.accepted, 2)
  {
    hide Usable, HopArrival, SigOf, Leaf;
    var X, empty: seq<Frame> := tr.accepted, [];
    FirstLeaf();
    StarWalk(q, 1);
    LinkHop(q, 9, 2.0);
    StarContacts(q);
    hide StarPlan, StarQuery, PlanOk, AllCertain;
    assert Settled(q, X, empty, [0, 1]);
    assert q.cs[9].frm == End(q, [0, 1]) && Handled(q, X, [0, 1], 9);
    EndOf(q, [0, 1], 9);
    var r :| r in X && |r| >= 2 && InPlan(q, r) && End(q, r) == End(q, [0, 1] + [9])
      && Dominates(SigOf(q, r), SigOf(q, [0, 1] + [9]));
  }

  /** Every answer on this plan is the table of frontiers running out. */
  lemma StarNeverFits(q: Query, res: SearchResult, tr: Trail)
    requires Star(q) && Answers(q, res, tr)
    ensures res == Stopped(Unpruned)
  {
    hide Usable, SigOf, Leaf, Filed, Explored;
    StarContacts(q);
    if Explored(q, tr) {
      var ps: seq<Path> := StarPaths(q, tr, 9);
      var ns: seq<NodeId> := seq(9, i requires 0 <= i < 9 => StarNode(i));
      forall i, j | 0 <= i < j < 9 ensures ns[i] != ns[j] {
        LeafInjective(if i == 0 then 1 else i, j);
      }
      NineNodesOverflow(q, tr, ps, ns);
    }
    if res == Stopped(Outcome.Overflow) {
      forall n ensures |Into(q, n)| <= FRONTIER_MAX {
        StarInto(q, n);
      }
      CertainNeverCrowded(q, tr.accepted);
    }
  }

  lemma {:induction false} StarPaths(q: Query, tr: Trail, m: nat) returns (ps: seq<Path>)
    requires Star(q) && Explored(q, tr) && m <= 9
    ensures |ps| == m
    ensures forall i :: 0 <= i < m ==> ps[i] in tr.accepted && Filed(q, ps[i]) && End(q, ps[i]) == StarNode(i)
  {
    hide Explored, Star, StarNode, Filed;
    if m == 0 {
      ps := [];
    } else {
      var before := StarPaths(q, tr, m - 1);
      var p := StarReached(q, tr, m - 1);
      ps := before + [p];
    }
  }

  // ---- The bounds are exact ----

  /** Physical plans of certain contacts with at most `n` receivers and `k` contacts into a node. */
  ghost predicate InClass(q: Query, n: nat, k: nat) {
    && PlanOk(q) && |q.cs| <= PLAN_MAX && AllCertain(q) && |Others(q)| <= n && forall v :: |Into(q, v)| <= k
  }

  ghost predicate AlwaysAnswered(cfg: Config, ln: real -> real, n: nat, k: nat) {
    forall q: Query, res: SearchResult, tr: Trail {:trigger Answers(q, res, tr), InClass(q, n, k)} ::
      q.cfg == cfg && q.ln == ln && InClass(q, n, k) && Answers(q, res, tr) ==> !res.Stopped?
  }

  /** Plans of certain contacts are always answered exactly up to eight receivers and eight
      contacts into any node. */
  lemma AnsweredIffWithinBounds(cfg: Config, ln: real -> real, n: nat, k: nat)
    requires n >= 2 && k >= 2 && cfg.maxHops >= 2 && cfg.maxRoutes >= 1
    ensures AlwaysAnswered(cfg, ln, n, k) <==> n <= 8 && k <= 8
  {
    hide Answers, Others, Into, PlanOk, AllCertain;
    if n <= TABLE_MAX && k <= FRONTIER_MAX {
      forall q: Query, res: SearchResult, tr: Trail |
        q.cfg == cfg && q.ln == ln && InClass(q, n, k) && Answers(q, res, tr)
        ensures !res.Stopped?
      {
        assert CertainPlan(q) by { ClassIsCertain(q, n, k); }
        CertainPlanAnswers(q, res, tr);
      }
    } else if n > TABLE_MAX {
      var q := StarQuery(cfg, ln);
      var tr := StarStops(q);
      StarInClass(q, n, k);
      assert Answers(q, Stopped(Unpruned), tr) && InClass(q, n, k);
    } else {
      var q := NineQuery(cfg, ln);
      var tr := NineStops(q);
      NineInClass(q, n, k);
      assert Answers(q, Stopped(Outcome.Overflow), tr) && InClass(q, n, k);
    }
  }

  lemma ClassIsCertain(q: Query, n: nat, k: nat)
    requires InClass(q, n, k) && n <= TABLE_MAX && k <= FRONTIER_MAX
    ensures CertainPlan(q)
  {
  }

  lemma StarInClass(q: Query, n: nat, k: nat)
    requires Star(q) && n >= 9 && k >= 2
    ensures InClass(q, n, k)
  {
    StarContacts(q);
    StarReceivers(q);
    hide StarPlan, StarQuery, PlanOk, AllCertain, Star;
    forall v ensures |Into(q, v)| <= k {
      StarInto(q, v);
    }
  }

  lemma NineInClass(q: Query, n: nat, k: nat)
    requires Nine(q) && n >= 2 && k >= 9
    ensures InClass(q, n, k)
  {
    NineShape(q);
    StageReceivers(q, 1);
  }

  /** The trail of the overflow: the seed and all nine ways on. */
  lemma NineStops(q: Query) returns (tr: Trail)
    requires Nine(q)
    ensures Answers(q, Stopped(Outcome.Overflow), tr)
  {
    hide AllAccepted, Crowded;
    tr := Trail(NineAccepted(), multiset{});
    NineAccepts(q);
    NineCrowds(q);
  }

  function NineAccepted(): set<Path> { {[0]} + set k: nat | 1 <= k <= 9 :: [0, k] }

  lemma NineAccepts(q: Query)
    requires Nine(q)
    ensures AllAccepted(q, NineAccepted())
  {
    hide Usable, HopArrival, SigOf, Walk, NineSig, Dominates;
    var X := NineAccepted();
    NineWalk(q, 1);
    NineShape(q);
    forall p | p in X ensures Accepted(q, p, X) {
      if p != [0] {
        NineWalk(q, p[1]);
      }
    }
  }

  lemma NineCrowds(q: Query)
    requires Nine(q)
    ensures Crowded(q, NineAccepted())
  {
    hide Usable, HopArrival, SigOf, Walk, NineSig, Dominates, Nine;
    var X := NineAccepted();
    var sigs := seq(9, i requires 0 <= i < 9 => NineSig(i + 1));
    forall i | 0 <= i < 9 ensures Witnessed(q, X, 3, sigs[i]) {
      NineWalk(q, i + 1);
      assert [0, i + 1] in X;
    }
    forall i, j | 0 <= i < 9 && 0 <= j < 9 && i != j ensures !Dominates(sigs[i], sigs[j]) {
      if Dominates(sigs[i], sigs[j]) {
        NineIncomparable(i + 1, j + 1);
      }
    }
    assert CrowdedBy(q, X, 3, sigs);
  }

  /** The trail of the full table: the hub, its eight leaves and the way back. */
  lemma StarStops(q: Query) returns (tr: Trail)
    requires Star(q)
    ensures Answers(q, Stopped(Unpruned), tr)
  {
    hide AllAccepted, Spread;
    tr := Trail(StarAccepted(), multiset{});
    StarAccepts(q);
    StarSpreads(q);
  }

  function StarAccepted(): set<Path> { {[0], [0, 1, 9]} + set k: nat | 1 <= k <= 8 :: [0, k] }

  lemma StarAccepts(q: Query)
    requires Star(q)
    ensures AllAccepted(q, StarAccepted())
  {
    hide Usable, HopArrival, SigOf, Walk, Leaf, Eligible;
    var X := StarAccepted();
    StarWalk(q, 1);
    BackWalk(q);
    forall p | p in X ensures Accepted(q, p, X) {
      if p != [0] && p != [0, 1, 9] {
        LeafInjective(p[1], p[1]);
        StarWalk(q, p[1]);
      }
    }
  }

  lemma StarSpreads(q: Query)
    requires Star(q)
    ensures Spread(q, StarAccepted())
  {
    hide Usable, HopArrival, SigOf, Walk, Leaf, Eligible, Star;
    var X := StarAccepted();
    BackWalk(q);
    var ns: seq<NodeId> := seq(9, i requires 0 <= i < 9 => StarNode(i));
    forall i | 0 <= i < 9 ensures EndsAt(q, X, ns[i]) {
      if i == 0 {
        assert [0, 1, 9] in X;
      } else {
        StarWalk(q, i);
        assert [0, i] in X;
      }
    }
    forall i, j | 0 <= i < j < 9 ensures ns[i] != ns[j] {
      LeafInjective(if i == 0 then 1 else i, j);
    }
    assert SpreadBy(q, X, ns);
  }

  lemma BackWalk(q: Query)
    requires Star(q)
    ensures InPlan(q, [0, 1, 9]) && Walk(q, [0, 1, 9]) && End(q, [0, 1, 9]) == 2 && VisitedOf(q, [0, 1, 9]) == [1, 3, 2]
    ensures [0, 1, 9][..2] == [0, 1] && End(q, [0, 1]) == 3 && Leaf(1) == 3
  {
    hide Usable, HopArrival;
    StarWalk(q, 1);
    LinkHop(q, 9, 2.0);
    StarContacts(q);
    Extend(q, [0, 1], 9);
    assert [0, 1] + [9] == [0, 1, 9];
  }
}
