/** Plans laid out on a tree of nodes, each pair with one confidence: the bounded tables hold the
    whole search, so it always answers. The repository's own plan is one of them. */
module CgrTrees {
  import opened Bundles
  import opened Contacts
  import opened CgrModel
  import opened CgrFrontier
  import opened CgrSearch
  import opened CgrTheorems
  import opened CgrMargin
  import opened CgrLimits

  /** The tree as seen from the source: distance, next node towards the source, confidence of that
      pair. */
  datatype Tree = Tree(depth: NodeId -> nat, parent: NodeId -> NodeId, edge: NodeId -> real)

  predicate Away(T: Tree, c: Contact) {
    T.depth(c.to) == T.depth(c.frm) + 1 && T.parent(c.to) == c.frm && c.conf == T.edge(c.to)
  }

  predicate Homeward(T: Tree, c: Contact) {
    T.depth(c.frm) == T.depth(c.to) + 1 && T.parent(c.frm) == c.to && c.conf == T.edge(c.frm)
  }

  ghost predicate OnTree(q: Query, T: Tree) {
    && T.depth(q.curr) == 0
    && forall j {:trigger q.cs[j]} :: 0 <= j < |q.cs| ==> Away(T, q.cs[j]) || Homeward(T, q.cs[j])
  }

  /** Nodes two hops out over `a`. */
  ghost function Kids(q: Query, T: Tree, a: NodeId): set<NodeId> {
    set y | y in Others(q) && T.depth(y) == 2 && T.parent(y) == a
  }

  /** Eight receivers; at most `width` nodes behind each first hop; contacts into a node, times
      `width`, within a frontier. */
  ghost predicate TreePlan(q: Query, T: Tree, width: nat) {
    && PlanOk(q) && OnTree(q, T) && |Others(q)| <= TABLE_MAX
    && (forall a :: |Kids(q, T, a)| <= width)
    && (forall n :: |Into(q, n)| * width <= FRONTIER_MAX)
  }

  // ---- Confidences on a tree ----

  /** Confidence of going straight to `v`. */
  function Gain(T: Tree, v: NodeId): real
    decreases T.depth(v)
  {
    if T.depth(v) == 0 then 1.0
    else if T.depth(T.parent(v)) < T.depth(v) then Times(Gain(T, T.parent(v)), T.edge(v))
    else 0.0
  }

  /** Confidence of going to `v` after turning back once from `x`. */
  function Detour(T: Tree, x: NodeId, v: NodeId): real
    decreases T.depth(v)
  {
    if T.depth(v) <= 1 then Times(Times(Gain(T, v), T.edge(x)), T.edge(x))
    else if T.depth(T.parent(v)) < T.depth(v) then Times(Detour(T, x, T.parent(v)), T.edge(v))
    else 0.0
  }

  /** The node `k` hops out on the way to `v`. */
  function Over(T: Tree, k: nat, v: NodeId): NodeId
    decreases T.depth(v)
  {
    if T.depth(v) <= k || T.depth(T.parent(v)) >= T.depth(v) then v else Over(T, k, T.parent(v))
  }

  function Second(q: Query, p: Path): NodeId {
    if |p| >= 2 && p[1] < |q.cs| then q.cs[p[1]].to else 0
  }

  // ---- The shape of accepted walks ----

  ghost predicate Straight(q: Query, T: Tree, p: Path)
    requires InPlan(q, p) && p != []
  {
    var v := End(q, p);
    && |p| == T.depth(v) && ConfOf(q, p) == Gain(T, v)
    && Over(T, 1, v) == q.cs[p[0]].to && T.parent(Over(T, 1, v)) == q.curr
    && (|p| >= 2 ==> Over(T, 2, v) == Second(q, p))
    && (|p| >= 3 ==> T.parent(v) in VisitedOf(q, p))
  }

  /** The first hop's receiver is never marked visited: a walk may turn back to it once. */
  ghost predicate Turned(q: Query, T: Tree, p: Path)
    requires InPlan(q, p) && p != []
  {
    var v, y := End(q, p), Second(q, p);
    && |p| >= 3 && |p| == T.depth(v) + 2 && T.depth(v) >= 1 && ConfOf(q, p) == Detour(T, y, v)
    && Over(T, 1, v) == q.cs[p[0]].to && y in VisitedOf(q, p) && T.parent(v) in VisitedOf(q, p)
    && (T.depth(v) >= 2 ==> Over(T, 2, v) != y)
  }

  ghost predicate Shaped(q: Query, T: Tree, p: Path)
    requires InPlan(q, p) && p != []
  {
    && (Straight(q, T, p) || Turned(q, T, p))
    && (|p| >= 2 ==> T.depth(Second(q, p)) == 2 && T.parent(Second(q, p)) == q.cs[p[0]].to && Second(q, p) in Others(q))
  }

  lemma FirstHopShape(q: Query, T: Tree, p: Path)
    requires OnTree(q, T) && InPlan(q, p) && |p| == 1 && Walk(q, p)
    ensures Shaped(q, T, p)
  {
    hide Usable, HopArrival, Times;
    var none: Path := [];
    assert p[..0] == none && p == none + [p[0]];
    Extend(q, none, p[0]);
    var v := q.cs[p[0]].to;
    assert q.cs[p[0]].frm == q.curr && Away(T, q.cs[p[0]]);
    assert Gain(T, v) == Times(Gain(T, q.curr), T.edge(v)) && Gain(T, q.curr) == ConfOf(q, none);
    assert Straight(q, T, p);
  }

  lemma SeenReceiver(q: Query, pre: Path, j: nat)
    requires pre != [] && InPlan(q, pre) && j < |q.cs| && NoDup(VisitedOf(q, pre + [j]))
    ensures InPlan(q, pre + [j]) && End(q, pre + [j]) == q.cs[j].to
    ensures ConfOf(q, pre + [j]) == HopConf(q, j, ConfOf(q, pre))
    ensures VisitedOf(q, pre + [j]) == VisitedOf(q, pre) + [q.cs[j].to] && q.cs[j].to !in VisitedOf(q, pre)
    ensures q.curr in VisitedOf(q, pre) && (|pre| >= 2 ==> End(q, pre) in VisitedOf(q, pre))
  {
    hide Usable, HopArrival, HopConf;
    Extend(q, pre, j);
    NewReceiver(q, pre, j);
    VisitedStart(q, pre);
    assert VisitedOf(q, pre)[0] == q.curr;
    if |pre| >= 2 {
      VisitedAt(q, pre, |pre| - 1);
      assert VisitedOf(q, pre)[|pre| - 1] == End(q, pre);
    }
  }

  /** What the ancestors of a node one hop further out are. */
  lemma OverChild(T: Tree, c: Contact)
    requires Away(T, c)
    ensures Over(T, 1, c.to) == if T.depth(c.to) <= 1 then c.to else Over(T, 1, c.frm)
    ensures Over(T, 2, c.to) == if T.depth(c.to) <= 2 then c.to else Over(T, 2, c.frm)
    ensures Gain(T, c.to) == Times(Gain(T, c.frm), c.conf)
    ensures T.depth(c.frm) >= 1 ==> forall x :: Detour(T, x, c.to) == Times(Detour(T, x, c.frm), c.conf)
  {
    hide Times;
  }

  /** One hop further out. */
  lemma AwayShape(q: Query, T: Tree, pre: Path, j: nat)
    requires OnTree(q, T) && pre != [] && InPlan(q, pre) && j < |q.cs| && Shaped(q, T, pre)
    requires NoDup(VisitedOf(q, pre + [j])) && q.cs[j].frm == End(q, pre) && Away(T, q.cs[j])
    ensures InPlan(q, pre + [j]) && Shaped(q, T, pre + [j])
  {
    hide Usable, HopArrival, Times, Over, Gain, Detour, VisitedOf, ConfOf, NoDup;
    SeenReceiver(q, pre, j);
    OverChild(T, q.cs[j]);
    var p := pre + [j];
    assert p[0] == pre[0] && (|pre| >= 2 ==> p[1] == pre[1]);
    if Straight(q, T, pre) {
      assert Straight(q, T, p);
    } else {
      assert Turned(q, T, p);
    }
  }

  /** Towards the source only the first hop's receiver can come next, once. */
  lemma HomewardShape(q: Query, T: Tree, pre: Path, j: nat)
    requires OnTree(q, T) && pre != [] && InPlan(q, pre) && j < |q.cs| && Shaped(q, T, pre)
    requires NoDup(VisitedOf(q, pre + [j])) && q.cs[j].frm == End(q, pre) && Homeward(T, q.cs[j])
    ensures InPlan(q, pre + [j]) && Shaped(q, T, pre + [j])
  {
    hide Usable, HopArrival, Times;
    SeenReceiver(q, pre, j);
    var p, v := pre + [j], End(q, pre);
    assert p[0] == pre[0] && (|pre| >= 2 ==> p[1] == pre[1]);
    assert T.parent(v) !in VisitedOf(q, pre);
    assert Straight(q, T, pre) && |pre| == 2;
    assert Turned(q, T, p);
  }

  lemma {:induction false} AcceptedShape(q: Query, T: Tree, X: set<Path>, p: Path)
    requires OnTree(q, T) && AllAccepted(q, X) && p in X
    ensures p != [] && InPlan(q, p) && Shaped(q, T, p)
  {
    hide Usable, HopArrival, Shaped, Away, Homeward;
    assert Accepted(q, p, X);
    if |p| == 1 {
      FirstHopShape(q, T, p);
    } else {
      var pre, j := p[..|p| - 1], p[|p| - 1];
      assert p == pre + [j];
      AcceptedShape(q, T, X, pre);
      if Away(T, q.cs[j]) {
        AwayShape(q, T, pre, j);
      } else {
        HomewardShape(q, T, pre, j);
      }
    }
  }

  // ---- Few keys per node ----

  function TreeKey(q: Query, p: Path): (nat, NodeId) { (LastContact(p), Second(q, p)) }

  /** The last contact and the node two hops out fix the confidence. */
  lemma KeyFixesConf(q: Query, T: Tree, p: Path, r: Path)
    requires InPlan(q, p) && InPlan(q, r) && |p| >= 2 && |r| >= 2 && Shaped(q, T, p) && Shaped(q, T, r)
    requires TreeKey(q, p) == TreeKey(q, r)
    ensures p[|p| - 1] == r[|r| - 1] && ConfOf(q, p) == ConfOf(q, r)
  {
    hide ConfOf, VisitedOf, Gain, Detour, Over;
    assert End(q, p) == End(q, r);
  }

  ghost function Pairs<A, B>(a: set<A>, b: set<B>): set<(A, B)> { set x, y | x in a && y in b :: (x, y) }

  ghost function Room(q: Query, T: Tree, v: NodeId): set<(nat, NodeId)> {
    Pairs(Into(q, v), Kids(q, T, Over(T, 1, v)))
  }

  lemma KeyHasRoom(q: Query, T: Tree, p: Path)
    requires InPlan(q, p) && |p| >= 2 && Shaped(q, T, p)
    ensures TreeKey(q, p) in Room(q, T, End(q, p))
  {
    hide ConfOf, VisitedOf, Gain, Detour, Over;
  }

  lemma {:induction false} PairCount<A, B>(a: set<A>, b: set<B>)
    ensures |Pairs(a, b)| <= |a| * |b|
  {
    if a == {} {
      assert Pairs(a, b) == {};
    } else {
      var x :| x in a;
      var rest := a - {x};
      PairCount(rest, b);
      RowCount(x, b);
      var row := set y | y in b :: (x, y);
      var others := Pairs(rest, b);
      assert Pairs(a, b) == others + row;
      assert |others + row| <= |others| + |row|;
      assert |a| * |b| == |rest| * |b| + |b|;
    }
  }

  lemma {:induction false} RowCount<A, B>(x: A, b: set<B>)
    ensures |set y | y in b :: (x, y)| <= |b|
  {
    if b == {} {
      assert (set y | y in b :: (x, y)) == {};
    } else {
      var y :| y in b;
      RowCount(x, b - {y});
      assert (set z | z in b :: (x, z)) == (set z | z in b - {y} :: (x, z)) + {(x, y)};
    }
  }

  /** On a tree plan the search always answers. */
  lemma TreePlanAnswers(q: Query, T: Tree, width: nat, res: SearchResult, tr: Trail)
    requires TreePlan(q, T, width) && Answers(q, res, tr)
    ensures !res.Stopped?
  {
    hide Usable, Shaped, Room, Kids, Into, OnTree, PlanOk;
    var X := tr.accepted;
    if res == Stopped(Outcome.Overflow) {
      forall p | p in X && |p| >= 2 && InPlan(q, p) ensures Shaped(q, T, p) && TreeKey(q, p) in Room(q, T, End(q, p)) {
        AcceptedShape(q, T, X, p);
        KeyHasRoom(q, T, p);
      }
      TreeKeyed(q, T, X);
      forall v ensures |Room(q, T, v)| <= FRONTIER_MAX {
        RoomCount(q, T, width, v);
      }
      NeverCrowded(q, X, p => TreeKey(q, p), v => Room(q, T, v));
    } else if res == Stopped(Unpruned) {
      SpreadNeedsReceivers(q, X);
    }
  }

  lemma TreeKeyed(q: Query, T: Tree, X: set<Path>)
    requires forall p :: p in X && |p| >= 2 && InPlan(q, p) ==> Shaped(q, T, p)
    ensures Keyed(q, X, p => TreeKey(q, p))
  {
    hide Shaped, TreeKey;
    forall p, r |
      p in X && r in X && InPlan(q, p) && InPlan(q, r) && |p| >= 2 && |r| >= 2 && TreeKey(q, p) == TreeKey(q, r)
      ensures p[|p| - 1] == r[|r| - 1] && ConfOf(q, p) == ConfOf(q, r)
    {
      KeyFixesConf(q, T, p, r);
    }
  }

  lemma RoomCount(q: Query, T: Tree, width: nat, v: NodeId)
    requires TreePlan(q, T, width)
    ensures |Room(q, T, v)| <= FRONTIER_MAX
  {
    hide Kids, Into, OnTree, PlanOk, Others, Over, Pairs;
    var a, b := Into(q, v), Kids(q, T, Over(T, 1, v));
    PairCount(a, b);
    ProductOrder(|a|, |b|, width);
    assert |a| * width <= FRONTIER_MAX;
  }

  lemma ProductOrder(n: nat, x: nat, y: nat)
    requires x <= y
    ensures n * x <= n * y
  {
  }

  // ---- The repository's plan ----

  const EART: NodeId := 0x4541_5254
  const ERLY: NodeId := 0x4552_4C59
  const MRLY: NodeId := 0x4D52_4C59
  const MLND: NodeId := 0x4D4C_4E44
  const ROVR: NodeId := 0x524F_5652

  /** Relays and landers in a row. */
  function Station(i: nat): NodeId {
    if i == 0 then EART else if i == 1 then ERLY else if i == 2 then MRLY else if i == 3 then MLND else ROVR
  }

  /** Confidence of the pair of stations `i` and `i + 1`. */
  function PairConf(i: nat): real { if i == 0 then 1.0 else if i == 1 then 0.9 else 0.95 }

  function PairRate(i: nat): real { if i == 0 then 1200.0 else 600.0 }

  function PairOwlt(i: nat): real { if i == 1 then 4.0 else if i == 2 then 1.0 else 0.0 }

  function PairBer(i: nat): real { if i == 0 then 0.0 else if i == 1 then 0.00001 else 0.000001 }

  /** Contact `k`: passes of 60 s every 300 s, each pair of stations in both directions, twice over. */
  function ShippedContact(k: nat): Contact {
    var i := k / 2 % 4;
    Contact(Station(if k % 2 == 0 then i else i + 1), Station(if k % 2 == 0 then i + 1 else i),
            (k / 2) as real * 300.0, (k / 2) as real * 300.0 + 60.0, PairRate(i), PairOwlt(i),
            PairConf(i), PairBer(i), Up, 0.0, 0.0)
  }

  /** The shipped plan, whatever its contacts have carried so far. */
  ghost predicate ShippedPlan(cs: seq<Contact>) {
    |cs| == 16 && forall k {:trigger cs[k]} :: 0 <= k < 16 ==>
      SameContact(ShippedContact(k), cs[k]) && cs[k].bytesUsed >= 0.0 && cs[k].reserved >= 0.0
  }

  function Position(n: NodeId): nat {
    if n == EART then 0 else if n == ERLY then 1 else if n == MRLY then 2 else if n == MLND then 3 else 4
  }

  function Distance(s: nat, i: nat): nat { if i < s then s - i else i - s }

  /** The row of stations as seen from station `s`. */
  function RowFrom(s: nat): Tree {
    Tree(n => Distance(s, Position(n)),
         n => Station(if Position(n) < s then Position(n) + 1 else if Position(n) == 0 then 0 else Position(n) - 1),
         n => PairConf(if Position(n) < s then Position(n) else if Position(n) == 0 then 0 else Position(n) - 1))
  }

  lemma StationPosition(i: nat)
    requires i <= 4
    ensures Position(Station(i)) == i
  {
  }

  /** Of stations `i` and `i + 1`, the one further from `s` hangs on the other. */
  lemma PairOnRow(s: nat, i: nat)
    requires s <= 4 && i < 4
    ensures var T, u, v := RowFrom(s), Station(i), Station(i + 1);
      if i < s then T.depth(u) == T.depth(v) + 1 && T.parent(u) == v && T.edge(u) == PairConf(i)
      else T.depth(v) == T.depth(u) + 1 && T.parent(v) == u && T.edge(v) == PairConf(i)
  {
    hide Station, Position, PairConf;
    StationPosition(i);
    StationPosition(i + 1);
  }

  lemma ContactOnRow(s: nat, k: nat, c: Contact)
    requires s <= 4 && k < 16 && SameContact(ShippedContact(k), c)
    ensures (Away(RowFrom(s), c) || Homeward(RowFrom(s), c)) && 0.0 <= c.conf <= 1.0 && 0.0 <= c.owlt
  {
    hide Station, PairConf, RowFrom;
    PairOnRow(s, k / 2 % 4);
    PairConfs();
  }

  lemma ShippedOnTree(q: Query, s: nat)
    requires ShippedPlan(q.cs) && s <= 4 && q.curr == Station(s)
    ensures OnTree(q, RowFrom(s)) && PlanOk(q)
  {
    hide Station, Position, ShippedContact, SameContact, Away, Homeward;
    StationPosition(s);
    assert RowFrom(s).depth(q.curr) == 0;
    hide RowFrom;
    forall k | 0 <= k < 16 ensures Away(RowFrom(s), q.cs[k]) || Homeward(RowFrom(s), q.cs[k])
      ensures 0.0 <= q.cs[k].conf <= 1.0 && 0.0 <= q.cs[k].owlt
    {
      ContactOnRow(s, k, q.cs[k]);
    }
  }

  lemma PairConfs()
    ensures forall i :: 0.0 <= PairConf(i) <= 1.0
  {
  }

  lemma ShippedReceivers(q: Query, n: NodeId)
    requires ShippedPlan(q.cs)
    ensures |Others(q)| <= 5 && |Into(q, n)| <= 4
  {
    hide Position;
    var stations: seq<NodeId> := seq(5, i requires 0 <= i < 5 => Station(i));
    forall x | x in Others(q) ensures x in stations {
      var k :| 0 <= k < |q.cs| && q.cs[k].to == x;
      assert SameContact(ShippedContact(k), q.cs[k]);
      var i := k / 2 % 4;
      assert x == stations[if k % 2 == 0 then i + 1 else i];
    }
    StationCount(Others(q), stations);
    ShippedInto(q, n);
  }

  lemma StationCount(s: set<NodeId>, stations: seq<NodeId>)
    requires forall x :: x in s ==> x in stations
    ensures |s| <= |stations|
  {
    var all := set x | x in stations;
    assert forall x :: x in s ==> x in all;
    ElementCount(stations);
    SubsetSize(s, all);
  }

  /** The receiver of contact `k`, by position. */
  function ReceiverAt(k: nat): nat { if k % 2 == 0 then k / 2 % 4 + 1 else k / 2 % 4 }

  lemma ShippedReceiver(q: Query, k: nat)
    requires ShippedPlan(q.cs) && k < 16
    ensures q.cs[k].to == Station(ReceiverAt(k)) && Position(q.cs[k].to) == ReceiverAt(k) <= 4
  {
    hide Station, Position;
    assert SameContact(ShippedContact(k), q.cs[k]);
    StationPosition(ReceiverAt(k));
  }

  lemma ShippedInto(q: Query, n: NodeId)
    requires ShippedPlan(q.cs)
    ensures |Into(q, n)| <= 4
  {
    hide Station, Position, ShippedContact;
    var p: int := Position(n);
    var ks := [2 * p - 2, 2 * p + 6, 2 * p + 1, 2 * p + 9];
    forall k | k in Into(q, n) ensures k in ks {
      ShippedReceiver(q, k);
      assert k == ks[0] || k == ks[1] || k == ks[2] || k == ks[3];
    }
    var all := set x: int | x in ks;
    ElementCount(ks);
    IndexCount(Into(q, n), all);
  }

  lemma {:induction false} IndexCount(a: set<nat>, b: set<int>)
    requires forall x :: x in a ==> x in b
    ensures |a| <= |b|
  {
    if a == {} {
    } else {
      var x :| x in a;
      IndexCount(a - {x}, b - {x});
    }
  }

  lemma ShippedKids(q: Query, s: nat, a: NodeId)
    requires ShippedPlan(q.cs) && s <= 4
    ensures |Kids(q, RowFrom(s), a)| <= 1
  {
    hide Station, Position, ShippedContact, ReceiverAt, PairConf;
    forall y | y in Others(q) ensures y == Station(Position(y)) && Position(y) <= 4 {
      var k :| 0 <= k < |q.cs| && q.cs[k].to == y;
      ShippedReceiver(q, k);
    }
    forall x, y | x in Kids(q, RowFrom(s), a) && y in Kids(q, RowFrom(s), a) ensures x == y {
      if Position(x) < s {
        StationPosition(Position(x) + 1);
      } else {
        StationPosition(Position(x) - 1);
      }
      if Position(y) < s {
        StationPosition(Position(y) + 1);
      } else {
        StationPosition(Position(y) - 1);
      }
    }
    AtMostOne(Kids(q, RowFrom(s), a));
  }

  lemma ShippedIsTreePlan(q: Query, s: nat)
    requires ShippedPlan(q.cs) && s <= 4 && q.curr == Station(s)
    ensures TreePlan(q, RowFrom(s), 1)
  {
    ShippedOnTree(q, s);
    ShippedReceivers(q, q.curr);
    hide ShippedPlan, Kids, Into, Others, OnTree, PlanOk, RowFrom, Station;
    var T := RowFrom(s);
    forall a: NodeId ensures |Kids(q, T, a)| <= 1 {
      ShippedKids(q, s, a);
    }
    forall n: NodeId ensures |Into(q, n)| * 1 <= FRONTIER_MAX {
      ShippedReceivers(q, n);
    }
  }

  /** On the repository's plan every search from a station is answered, whatever its contacts have
      carried, whatever is sent, when and how it is weighed. */
  lemma ShippedPlanAnswers(q: Query, s: nat, res: SearchResult, tr: Trail)
    requires ShippedPlan(q.cs) && s <= 4 && q.curr == Station(s) && Answers(q, res, tr)
    ensures !res.Stopped?
  {
    hide ShippedPlan, TreePlan, RowFrom, Station, Answers;
    ShippedIsTreePlan(q, s);
    TreePlanAnswers(q, RowFrom(s), 1, res, tr);
  }

  /** So with the default hop limit a route is reported missing there exactly when there is none,
      and what is found is a feasible route, cheapest up to what the margin is worth. */
  lemma ShippedPlanRoutes(q: Query, s: nat, res: SearchResult, tr: Trail)
    requires ShippedPlan(q.cs) && s <= 4 && q.curr == Station(s) && q.curr != q.dst && q.cfg.maxHops >= 5
    requires Weighed(q.cfg, q.ln) && Answers(q, res, tr)
    ensures res.Found? || res.NoRoute?
    ensures res.NoRoute? <==> forall r :: !FeasibleRoute(q, r)
    ensures res.Found? ==> IsRoute(q, res.route) && NearCheapest(q, res.route)
  {
    hide ShippedPlan, Others, Answers, IsRoute, NearCheapest, FeasibleRoute, Weighed, Station, OnTree, PlanOk;
    ShippedPlanAnswers(q, s, res, tr);
    ShippedReceivers(q, q.dst);
    ShippedOnTree(q, s);
    SelectionCorrect(q, res, tr);
  }
}
