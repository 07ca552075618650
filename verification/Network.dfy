/** Nodes sharing a radio channel. Frames once sent may reach any node at any later time, any
    number of times or never, intact or with a burst of bytes changed. The log records, in
    order, what happened to which bundle at which node. */
module Network {
  import opened Bundles
  import opened Contacts
  import opened Codec
  import opened Bursts
  import opened Queues
  import opened Custodies
  import opened NodeModel

  const ID_RANGE: bv64 := 0x1_0000_0000

  datatype Entry =
    | Made(at: nat, count: bv64, b: Bundle)              // generated and queued
    | Taken(at: nat, b: Bundle, t: real, queued: bool)   // custody accepted; queued if a slot was free
    | Arrived(at: nat, b: Bundle)                        // delivered at the destination
    | Relayed(at: nat, contact: nat, b: Bundle, len: nat)
    | Evicted(at: nat, b: Bundle)                        // made room for a bundle generated here
    | Aged(at: nat, b: Bundle)                           // expired before it was sent

  datatype Net = Net(nodes: seq<Node>, air: set<seq<bv8>>, now: real, log: seq<Entry>)

  datatype Action =
    | Originate(i: nat, dst: NodeId, cls: U8, msg: seq<bv8>, stamp: bv32)
    | Hear(i: nat, t: real, f: seq<bv8>)
    | Turn(i: nat, t: real, n: Node, ev: Ticked)

  // ---- Steps ----

  function Evictions(i: nat, bs: seq<Bundle>): seq<Entry> { seq(|bs|, k requires 0 <= k < |bs| => Evicted(i, bs[k])) }

  /** A frame in the air reaches a receiver intact, or damaged in at most four consecutive bytes. */
  ghost predicate Heard(air: set<seq<bv8>>, f: seq<bv8>) {
    f in air || exists g, from, len :: g in air && ShortBurst(g, f, from, len)
  }

  /** The channel of the model: a frame in the air reaches a receiver intact, or damaged in at
      most four consecutive bytes other than in the checksum's one blind spot. */
  ghost predicate Reaching(air: set<seq<bv8>>, f: seq<bv8>) {
    f in air || exists g, from, len :: g in air && ShortBurst(g, f, from, len) && !BlindSpot(g, f)
  }

  function OriginateLog(n: Node, i: nat, b: Bundle): seq<Entry> {
    Evictions(i, Displaced(n.queue, n.cap, b))
    + if Admit(n.queue, n.cap, b).code >= 0 then [Made(i, n.counter, b)] else []
  }

  function HearLog(i: nat, t: real, r: Received): seq<Entry> {
    match r
    case ToUser(b) => [Arrived(i, b)]
    case InCustody(b, code) => [Taken(i, b, t, code >= 0)]
    case _ => []
  }

  function TurnLog(i: nat, ev: Ticked): seq<Entry> {
    match ev
    case Lapsed(b) => [Aged(i, b)]
    case Sent(b, j, frame) => [Relayed(i, j, b, |frame|)]
    case _ => []
  }

  ghost predicate Step(w: World, s: Net, s': Net, a: Action) {
    match a
    case Originate(i, dst, cls, msg, stamp) =>
      && i < |s.nodes| && cls <= COMMAND && s.nodes[i].counter < ID_RANGE && s.now <= w.val(stamp)
      && var b := NewBundle(s.nodes[i], dst, cls, msg, stamp);
      s' == Net(s.nodes[i := Generate(s.nodes[i], dst, cls, msg, stamp).0], s.air, w.val(stamp),
                s.log + OriginateLog(s.nodes[i], i, b))
    case Hear(i, t, f) =>
      && i < |s.nodes| && s.now <= t && Reaching(s.air, f)
      && s' == Net(s.nodes[i := Receive(s.nodes[i], t, f, w).0], s.air, t,
                   s.log + HearLog(i, t, Receive(s.nodes[i], t, f, w).1))
    case Turn(i, t, n, ev) =>
      && i < |s.nodes| && s.now <= t && TickStep(s.nodes[i], t, n, ev, w)
      && s' == Net(s.nodes[i := n], if ev.Sent? then s.air + {ev.frame} else s.air, t, s.log + TurnLog(i, ev))
  }

  ghost predicate Start(s: Net) {
    && s.air == {} && s.log == []
    && (forall i, j :: 0 <= i < j < |s.nodes| ==> s.nodes[i].self != s.nodes[j].self)
    && forall i :: 0 <= i < |s.nodes| ==> FreshNode(s.nodes[i])
  }

  ghost predicate FreshNode(n: Node) {
    && n.queue == [] && n.records == [] && n.period == TIMEOUT_DEFAULT && n.counter == 1 && n.cap >= 0.0
    && forall j :: 0 <= j < |n.plan| ==>
         n.plan[j].bytesUsed == 0.0 && n.plan[j].reserved == 0.0 && Capacity(n.plan[j]) >= 0.0
  }

  /** A run: states linked by steps from a start state. */
  ghost predicate Run(w: World, ss: seq<Net>, acts: seq<Action>) {
    && |ss| == |acts| + 1 && Start(ss[0])
    && forall k :: 0 <= k < |acts| ==> Step(w, ss[k], ss[k + 1], acts[k])
  }

  // ---- Node invariants ----

  ghost predicate NodesOk(s: Net) {
    && (forall i :: 0 <= i < |s.nodes| ==> NodeOk(s.nodes[i]) && s.nodes[i].period == TIMEOUT_DEFAULT)
    && (forall i, j :: 0 <= i < j < |s.nodes| ==> s.nodes[i].self != s.nodes[j].self)
    && forall e :: e in s.log ==> e.at < |s.nodes|
  }

  lemma StartNodesOk(s: Net)
    requires Start(s)
    ensures NodesOk(s)
  {
    forall i | 0 <= i < |s.nodes| ensures NodeOk(s.nodes[i]) {
      assert FreshNode(s.nodes[i]);
    }
  }

  /** The stepping node's new state, and that it is the same node. */
  lemma StepNode(w: World, s: Net, s': Net, a: Action)
    requires NodesOk(s) && Step(w, s, s', a)
    ensures |s'.nodes| == |s.nodes| && a.i < |s.nodes| && s'.nodes == s.nodes[a.i := s'.nodes[a.i]]
    ensures s'.nodes[a.i].self == s.nodes[a.i].self && s'.nodes[a.i].period == s.nodes[a.i].period
    ensures NodeOk(s'.nodes[a.i]) && s.now <= s'.now && s.log <= s'.log
    ensures forall e :: e in s'.log ==> e in s.log || e.at == a.i
  {
    hide NodeOk, Generate, Receive, TickStep, NewBundle, Displaced, Admit;
    var n := s.nodes[a.i];
    if a.Originate? {
      GenerateKeeps(n, a.dst, a.cls, a.msg, a.stamp);
      GenerateSame(n, a.dst, a.cls, a.msg, a.stamp);
    } else if a.Hear? {
      ReceiveKeeps(n, a.t, a.f, w);
      ReceiveSame(n, a.t, a.f, w);
    } else {
      TickKeeps(n, a.t, a.n, a.ev, w);
      TickSame(n, a.t, a.n, a.ev, w);
    }
  }

  /** Same node, same custody timeout. */
  predicate SameNode(n: Node, n': Node) { n'.self == n.self && n'.period == n.period }

  lemma GenerateSame(n: Node, dst: NodeId, cls: U8, msg: seq<bv8>, now: bv32)
    ensures SameNode(n, Generate(n, dst, cls, msg, now).0)
  {
    hide Admit, NewBundle, NextCount;
  }

  lemma ReceiveSame(n: Node, t: real, f: seq<bv8>, w: World)
    ensures SameNode(n, Receive(n, t, f, w).0)
  {
    hide Parse, Admit, Acceptable, Transferred, Released, Free;
  }

  lemma TickSame(n: Node, t: real, n': Node, ev: Ticked, w: World)
    requires TickStep(n, t, n', ev, w)
    ensures SameNode(n, n')
  {
    hide Frame, Admit, Released, Swept, Behead, Head, FirstHop, GoesBack, IsAlive, Consume, IsFeasibleFor;
  }

  lemma StepNodesOk(w: World, s: Net, s': Net, a: Action)
    requires NodesOk(s) && Step(w, s, s', a)
    ensures NodesOk(s')
  {
    hide NodeOk, Step;
    StepNode(w, s, s', a);
  }

  // ---- Conservation ----

  /** Bundles that entered a node's queue, in order. */
  function EnteredAt(log: seq<Entry>, i: nat): seq<Bundle> {
    if log == [] then []
    else
      var e := log[|log| - 1];
      EnteredAt(log[..|log| - 1], i)
      + if e.at == i && (e.Made? || (e.Taken? && e.queued)) then [e.b] else []
  }

  /** Bundles that left it: sent, expired or evicted. */
  function LeftAt(log: seq<Entry>, i: nat): seq<Bundle> {
    if log == [] then []
    else
      var e := log[|log| - 1];
      LeftAt(log[..|log| - 1], i) + if e.at == i && (e.Relayed? || e.Evicted? || e.Aged?) then [e.b] else []
  }

  /** Nothing is lost or duplicated inside a node: what entered is what left plus what is queued. */
  ghost predicate Conserved(s: Net) {
    forall i :: 0 <= i < |s.nodes| ==>
      multiset(EnteredAt(s.log, i)) == multiset(LeftAt(s.log, i)) + multiset(s.nodes[i].queue)
  }

  lemma {:induction false} LogConcat(log: seq<Entry>, more: seq<Entry>, i: nat)
    ensures EnteredAt(log + more, i) == EnteredAt(log, i) + EnteredAt(more, i)
    ensures LeftAt(log + more, i) == LeftAt(log, i) + LeftAt(more, i)
  {
    if more == [] {
      assert log + more == log;
    } else {
      assert (log + more)[..|log + more| - 1] == log + more[..|more| - 1];
      LogConcat(log, more[..|more| - 1], i);
    }
  }

  lemma OneEntry(e: Entry, i: nat)
    ensures EnteredAt([e], i) == if e.at == i && (e.Made? || (e.Taken? && e.queued)) then [e.b] else []
    ensures LeftAt([e], i) == if e.at == i && (e.Relayed? || e.Evicted? || e.Aged?) then [e.b] else []
  {
    assert [e][..0] == [];
  }

  /** The log suffix a step adds. */
  function Added(s: Net, s': Net): seq<Entry>
    requires |s.log| <= |s'.log|
  {
    s'.log[|s.log|..]
  }

  lemma StepBalance(w: World, s: Net, s': Net, a: Action)
    requires NodesOk(s) && Step(w, s, s', a)
    ensures |s.log| <= |s'.log| && s'.log == s.log + Added(s, s')
    ensures a.i < |s.nodes| && |s'.nodes| == |s.nodes|
    ensures multiset(s'.nodes[a.i].queue) + multiset(LeftAt(Added(s, s'), a.i))
            == multiset(s.nodes[a.i].queue) + multiset(EnteredAt(Added(s, s'), a.i))
  {
    StepNode(w, s, s', a);
    match a
    case Originate(i, dst, cls, msg, stamp) =>
      OriginateBalance(s.nodes[i], i, NewBundle(s.nodes[i], dst, cls, msg, stamp));
    case Hear(i, t, f) => HearBalance(w, s.nodes[i], i, t, f);
    case Turn(i, t, n, ev) => TurnBalance(w, s.nodes[i], i, t, n, ev);
  }

  lemma OriginateBalance(n: Node, i: nat, b: Bundle)
    ensures var more := OriginateLog(n, i, b);
      multiset(Admit(n.queue, n.cap, b).queue) + multiset(LeftAt(more, i))
      == multiset(n.queue) + multiset(EnteredAt(more, i))
  {
    hide Admit, Displaced, EnteredAt, LeftAt;
    DisplacedBalance(n.queue, n.cap, b);
    var bs, made := Displaced(n.queue, n.cap, b), Made(i, n.counter, b);
    OneEntry(made, i);
    LogConcat(Evictions(i, bs), [made], i);
    EvictionsLeave(i, bs);
    var more := OriginateLog(n, i, b);
    assert more == Evictions(i, bs) + (if Admit(n.queue, n.cap, b).code >= 0 then [made] else []);
    assert Evictions(i, bs) + [] == Evictions(i, bs);
    assert LeftAt(more, i) == bs;
    assert EnteredAt(more, i) == if Admit(n.queue, n.cap, b).code >= 0 then [b] else [];
  }

  lemma {:induction false} EvictionsLeave(i: nat, bs: seq<Bundle>)
    ensures EnteredAt(Evictions(i, bs), i) == [] && LeftAt(Evictions(i, bs), i) == bs
  {
    if bs == [] {
    } else {
      var before := bs[..|bs| - 1];
      assert Evictions(i, bs)[..|bs| - 1] == Evictions(i, before);
      EvictionsLeave(i, before);
    }
  }

  lemma HearBalance(w: World, n: Node, i: nat, t: real, f: seq<bv8>)
    requires NodeOk(n)
    ensures var r := Receive(n, t, f, w); var more := HearLog(i, t, r.1);
      multiset(r.0.queue) + multiset(LeftAt(more, i)) == multiset(n.queue) + multiset(EnteredAt(more, i))
  {
    hide Parse, Admit, Displaced, Released, Transferred, Acceptable, EnteredAt, LeftAt, TakenOver;
    if Parse(f).Accepted? && Receive(n, t, f, w).1.InCustody? {
      CustodyAdmits(n, t, f, w);
      var b := TakenOver(n, Parse(f).bundle);
      DisplacedBalance(n.queue, n.cap, b);
      OneEntry(Taken(i, b, t, Admit(n.queue, n.cap, b).code >= 0), i);
    } else if Receive(n, t, f, w).1.ToUser? {
      OneEntry(Arrived(i, Parse(f).bundle), i);
    } else {
      assert HearLog(i, t, Receive(n, t, f, w).1) == [];
      NoEntry(i);
    }
  }

  lemma NoEntry(i: nat)
    ensures EnteredAt([], i) == [] && LeftAt([], i) == []
  {
  }

  /** Custody is taken only where the bundle fits without displacing any other. */
  lemma CustodyAdmits(n: Node, t: real, f: seq<bv8>, w: World)
    requires Receive(n, t, f, w).1.InCustody?
    ensures Parse(f).Accepted? && Free(n.queue, n.cap) >= TakenOver(n, Parse(f).bundle).size as real
    ensures Displaced(n.queue, n.cap, TakenOver(n, Parse(f).bundle)) == []
    ensures var b, out := TakenOver(n, Parse(f).bundle), Receive(n, t, f, w);
      out.1 == InCustody(b, Admit(n.queue, n.cap, b).code) && out.0.queue == Admit(n.queue, n.cap, b).queue
  {
    hide Parse, Admit, Displaced, Free, Released, Transferred, Recordable, IsAlive, Rejecting, Holds;
    DisplacedBalance(n.queue, n.cap, TakenOver(n, Parse(f).bundle));
  }

  lemma TurnBalance(w: World, n: Node, i: nat, t: real, n': Node, ev: Ticked)
    requires NodeOk(n) && TickStep(n, t, n', ev, w)
    ensures var more := TurnLog(i, ev);
      multiset(n'.queue) + multiset(LeftAt(more, i)) == multiset(n.queue) + multiset(EnteredAt(more, i))
  {
    hide TickStep, NodeOk, Parse;
    TickConserves(n, t, n', ev, w);
    if ev.Lapsed? {
      OneEntry(Aged(i, ev.b), i);
    } else if ev.Sent? {
      OneEntry(Relayed(i, ev.contact, ev.b, |ev.frame|), i);
    }
  }

  lemma {:induction false} ElsewhereUntouched(more: seq<Entry>, i: nat, k: nat)
    requires i != k && forall e :: e in more ==> e.at == i
    ensures EnteredAt(more, k) == [] && LeftAt(more, k) == []
  {
    if more == [] {
    } else {
      assert more[|more| - 1] in more;
      ElsewhereUntouched(more[..|more| - 1], i, k);
    }
  }

  lemma AddedHere(w: World, s: Net, s': Net, a: Action)
    requires Step(w, s, s', a) && |s.log| <= |s'.log|
    ensures forall e :: e in Added(s, s') ==> e.at == a.i
  {
    hide TickStep, Receive, Generate, Admit, NewBundle, Displaced, Reaching;
    if a.Originate? {
      assert Added(s, s') == OriginateLog(s.nodes[a.i], a.i, NewBundle(s.nodes[a.i], a.dst, a.cls, a.msg, a.stamp));
    } else if a.Hear? {
      assert Added(s, s') == HearLog(a.i, a.t, Receive(s.nodes[a.i], a.t, a.f, w).1);
    } else {
      assert Added(s, s') == TurnLog(a.i, a.ev);
    }
  }

  lemma Balanced(e: seq<Bundle>, l: seq<Bundle>, q: seq<Bundle>, e1: seq<Bundle>, l1: seq<Bundle>, q1: seq<Bundle>)
    requires multiset(e) == multiset(l) + multiset(q)
    requires multiset(q1) + multiset(l1) == multiset(q) + multiset(e1)
    ensures multiset(e + e1) == multiset(l + l1) + multiset(q1)
  {
    assert multiset(e + e1) == multiset(e) + multiset(e1) && multiset(l + l1) == multiset(l) + multiset(l1);
    forall b: Bundle ensures multiset(e + e1)[b] == (multiset(l + l1) + multiset(q1))[b] {
      assert (multiset(q1) + multiset(l1))[b] == (multiset(q) + multiset(e1))[b];
    }
  }

  lemma StepConserves(w: World, s: Net, s': Net, a: Action)
    requires NodesOk(s) && Conserved(s) && Step(w, s, s', a)
    ensures Conserved(s')
  {
    hide Step, NodeOk, EnteredAt, LeftAt;
    StepBalance(w, s, s', a);
    StepNode(w, s, s', a);
    AddedHere(w, s, s', a);
    var more := Added(s, s');
    forall k | 0 <= k < |s'.nodes|
      ensures multiset(EnteredAt(s'.log, k)) == multiset(LeftAt(s'.log, k)) + multiset(s'.nodes[k].queue)
    {
      LogConcat(s.log, more, k);
      if k != a.i {
        ElsewhereUntouched(more, a.i, k);
      }
      Balanced(EnteredAt(s.log, k), LeftAt(s.log, k), s.nodes[k].queue,
               EnteredAt(more, k), LeftAt(more, k), s'.nodes[k].queue);
    }
  }
}
