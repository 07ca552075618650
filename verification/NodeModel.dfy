/** One node's steps as values: what generating, receiving and ticking do to its state. */
module NodeModel {
  import opened Bundles
  import opened Contacts
  import opened CgrModel
  import CgrSearch
  import opened CgrSelect
  import opened CgrTheorems
  import opened Codec
  import opened Queues
  import opened Custodies

  const FRAME_BUFFER: nat := 256

  /** What the hardware supplies: the logarithm and the reading of float patterns. */
  datatype World = World(ln: real -> real, val: FloatReading)

  datatype Node = Node(
    self: NodeId, plan: seq<Contact>, cfg: Config,
    queue: seq<Bundle>, cap: real, policy: string,
    records: seq<Record>, period: real,
    counter: bv64, tx: nat, rx: nat, delivered: nat)

  // ---- Generate ----

  function MakeId(self: NodeId, counter: bv64): BundleId { ((self as bv64) << 32) | counter }

  function NextCount(c: bv64): bv64 { c + 1 }

  /** No two nodes, and no node twice, mint the same identifier with counts below `c`. */
  ghost predicate UniqueBelow(c: int) {
    forall a: NodeId, x: bv64, b: NodeId, y: bv64 {:trigger MakeId(a, x), MakeId(b, y)} ::
      a != 0 && b != 0 && x as int < c && y as int < c && MakeId(a, x) == MakeId(b, y) ==> a == b && x == y
  }

  /** Identifiers stay unique across all nodes exactly up to 2^32 counts. */
  lemma UniqueIffBelowRange(c: int)
    ensures UniqueBelow(c) <==> c <= 0x1_0000_0000
  {
    if c <= 0x1_0000_0000 {
      forall a: NodeId, x: bv64, b: NodeId, y: bv64 |
        x as int < c && y as int < c && MakeId(a, x) == MakeId(b, y)
        ensures a == b && x == y
      {
        CountFits(x);
        CountFits(y);
        MakeIdInjective(a, x, b, y);
      }
    } else {
      MakeIdCollides();
      assert (0x1_0000_0000 as bv64) as int < c;
    }
  }

  lemma CountFits(x: bv64)
    requires x as int < 0x1_0000_0000
    ensures x < 0x1_0000_0000
  {
  }

  lemma MakeIdInjective(a: NodeId, x: bv64, b: NodeId, y: bv64)
    requires x < 0x1_0000_0000 && y < 0x1_0000_0000 && MakeId(a, x) == MakeId(b, y)
    ensures a == b && x == y
  {
  }

  /** The first count past that range makes nodes 2 and 3 mint the same identifier. */
  lemma MakeIdCollides()
    ensures MakeId(2, 0x1_0000_0000) == MakeId(3, 0x1_0000_0000)
  {
  }

  /** The upper half of an identifier names the node, the lower half is its count. */
  lemma IdParts(a: NodeId, x: bv64)
    requires x < 0x1_0000_0000
    ensures (MakeId(a, x) >> 32) as bv32 == a && MakeId(a, x) & 0xFFFF_FFFF == x
  {
  }

  function Clip(msg: seq<bv8>): seq<bv8> { if |msg| > MAX_PAYLOAD then msg[..MAX_PAYLOAD] else msg }

  function NewBundle(n: Node, dst: NodeId, cls: U8, msg: seq<bv8>, now: bv32): Bundle {
    Bundle(MakeId(n.self, n.counter), n.self, dst, n.self, n.self,
           WIRE_HEADER + |Clip(msg)| + CRC_LEN, cls, cls, now, TTL_ONE_HOUR, Clip(msg),
           RESET.(status := Generated))
  }

  /** `b` is the bundle a user of node `self` asked for: the message, up to 160 bytes of it, to
      `dst`, in class `cls` and the priority of that class, generated `now` for one hour. */
  predicate AsAsked(b: Bundle, self: NodeId, dst: NodeId, cls: U8, msg: seq<bv8>, now: bv32) {
    && b.src == self && b.dst == dst && b.curr == self && b.cust == self
    && b.payload == (if |msg| <= 160 then msg else msg[..160]) && b.size == 45 + |b.payload|
    && b.cls == cls && b.prio == cls && b.tGen == now && b.ttl == TTL_ONE_HOUR
    && b.run == Runtime(Generated, 0, 0, 0.0, 0.0, 0.0)
  }

  /** Generating asks for exactly that bundle under the next count, and queues it unchanged behind
      the others where there is room. */
  lemma GeneratesAsAsked(n: Node, dst: NodeId, cls: U8, msg: seq<bv8>, now: bv32)
    ensures AsAsked(NewBundle(n, dst, cls, msg, now), n.self, dst, cls, msg, now)
    ensures NewBundle(n, dst, cls, msg, now).id == MakeId(n.self, n.counter)
    ensures |n.queue| < 16 && Load(n.queue) as real + 45.0 + (if |msg| <= 160 then |msg| else 160) as real <= n.cap ==>
              Generate(n, dst, cls, msg, now)
              == (n.(queue := n.queue + [NewBundle(n, dst, cls, msg, now)], counter := NextCount(n.counter)), 0)
  {
    hide MakeId, NextCount, Load;
  }

  function Generate(n: Node, dst: NodeId, cls: U8, msg: seq<bv8>, now: bv32): (Node, int) {
    var r := Admit(n.queue, n.cap, NewBundle(n, dst, cls, msg, now));
    (n.(queue := r.queue, counter := NextCount(n.counter)), r.code)
  }

  // ---- Receive ----

  datatype Received = BadFrame | ToUser(b: Bundle) | InCustody(b: Bundle, code: int) | Declined(b: Bundle)

  /** The bundle as the node takes it over. */
  function TakenOver(n: Node, b: Bundle): Bundle {
    b.(curr := n.self, cust := if Recordable(n.records, b.id) then n.self else b.cust)
  }

  function Receive(n: Node, t: real, f: seq<bv8>, w: World): (Node, Received) {
    match Parse(f)
    case Rejected => (n, BadFrame)
    case Accepted(b) =>
      var n1 := n.(rx := n.rx + 1);
      if b.dst == n.self then
        (n1.(delivered := n.delivered + 1, records := Released(n.records, b.id)), ToUser(b))
      else if Acceptable(n.records, b, n.self, t, Free(n.queue, n.cap), n.policy, w.val) then
        var r := Admit(n.queue, n.cap, TakenOver(n, b));
        (n1.(records := Transferred(n.records, b.id, n.self, t, n.period), queue := r.queue),
         InCustody(TakenOver(n, b), r.code))
      else (n1, Declined(b))
  }

  // ---- Tick ----

  /** Why a served bundle goes back to the queue. */
  datatype Reason = NoWay | NotOpen(first: nat) | TooLong | RadioFailed(first: nat)

  datatype Ticked =
    | Idle
    | Lapsed(b: Bundle)
    | Kept(b: Bundle, why: Reason)
    | Sent(b: Bundle, contact: nat, frame: seq<bv8>)

  /** The bundle a tick serves and the queue without it. */
  function Head(n: Node, t: real, w: World): Bundle
    requires n.queue != []
  {
    n.queue[Best(n.queue, t, w.val)]
  }

  function Behead(n: Node, t: real, w: World): seq<Bundle>
    requires n.queue != []
  {
    SwapRemove(n.queue, Best(n.queue, t, w.val))
  }

  function RouteQuery(n: Node, b: Bundle, t: real, w: World): Query {
    QueryOf(n.plan, b, t, n.cfg, w.ln, w.val)
  }

  /** A route the search may answer with. */
  ghost predicate Choosable(q: Query, route: Route) { Answered(q, CgrSearch.Found(route)) }

  /** The search may answer that there is none. */
  ghost predicate Unroutable(q: Query) { Answered(q, CgrSearch.NoRoute) }

  /** `j` is the first hop of a route the search may choose for `b`. */
  ghost predicate FirstHop(n: Node, b: Bundle, t: real, j: nat, w: World) {
    exists route: Route :: route.hops != [] && route.hops[0] == j && Choosable(RouteQuery(n, b, t, w), route)
  }

  ghost predicate GoesBack(n: Node, b: Bundle, t: real, why: Reason, w: World) {
    match why
    case NoWay => Unroutable(RouteQuery(n, b, t, w))
    case NotOpen(j) => j < |n.plan| && FirstHop(n, b, t, j, w) && !IsFeasibleFor(n.plan[j], b.size as real, t)
    case TooLong => !Encodable(b)
    case RadioFailed(j) =>
      && j < |n.plan| && FirstHop(n, b, t, j, w)
      && IsFeasibleFor(n.plan[j], b.size as real, t) && Encodable(b)
  }

  /** What happens to a live bundle `b` taken off the queue of `n`. */
  ghost predicate Dispatched(n: Node, b: Bundle, t: real, n': Node, ev: Ticked, w: World) {
    match ev
    case Kept(b', why) => b' == b && GoesBack(n, b, t, why, w) && n' == n.(queue := Admit(n.queue, n.cap, b).queue)
    case Sent(b', j, frame) =>
      && b' == b && j < |n.plan| && FirstHop(n, b, t, j, w) && IsFeasibleFor(n.plan[j], b.size as real, t)
      && Encodable(b) && frame == Frame(b)
      && n' == n.(plan := n.plan[j := Consume(n.plan[j], b.size as real)], tx := n.tx + 1)
    case _ => false
  }

  /** One attempt to send the highest-ranked bundle. */
  ghost predicate Attempt(n: Node, t: real, n': Node, ev: Ticked, w: World) {
    if n.queue == [] then ev.Idle? && n' == n
    else
      var b, popped := Head(n, t, w), n.(queue := Behead(n, t, w));
      if IsAlive(b, t, w.val) then Dispatched(popped, b, t, n', ev, w)
      else ev == Lapsed(b) && n' == popped.(records := Released(n.records, b.id))
  }

  /** One tick: custody timeouts first, then one attempt to send. */
  ghost predicate TickStep(n: Node, t: real, n': Node, ev: Ticked, w: World) {
    Attempt(n.(records := Swept(n.records, t)), t, n', ev, w)
  }

  /** The first hop leaves the node where the bundle is. */
  lemma ChosenHop(q: Query, route: Route)
    requires Choosable(q, route)
    ensures route.hops != [] && route.hops[0] < |q.cs| && q.cs[route.hops[0]].frm == q.curr
  {
    hide Walk, Cost, CheapestRoute, Answered;
    AnsweredCorrectly(q, CgrSearch.Found(route));
    var p :| FeasibleRoute(q, p) && NoDup(VisitedOf(q, p)) && |p| <= q.cfg.maxHops + 1 && route == Candidate(q, p);
    assert route.hops[0] == p[0];
    WalkStart(q, p);
  }

  lemma FirstHopIsOwn(n: Node, b: Bundle, t: real, j: nat, w: World)
    requires FirstHop(n, b, t, j, w)
    ensures j < |n.plan| && n.plan[j].frm == b.curr
  {
    hide Choosable;
    var route: Route :| route.hops != [] && route.hops[0] == j && Choosable(RouteQuery(n, b, t, w), route);
    ChosenHop(RouteQuery(n, b, t, w), route);
  }

  lemma {:induction false} WalkStart(q: Query, p: Path)
    requires InPlan(q, p) && Walk(q, p) && p != []
    ensures q.cs[p[0]].frm == q.curr
  {
    hide Usable, ArriveAt;
    if |p| == 1 {
      assert p[..0] == [];
    } else {
      WalkStart(q, p[..|p| - 1]);
    }
  }

  // ---- What every step keeps ----

  predicate Carriable(b: Bundle) { Encodable(b) && b.size == FrameLength(b) }

  ghost predicate NodeOk(n: Node) {
    && Load(n.queue) as real <= n.cap && |n.queue| <= QUEUE_MAX
    && (forall b :: b in n.queue ==> Carriable(b) && b.curr == n.self)
    && TableOk(n.records) && (forall r :: r in n.records ==> r.custodian == n.self)
    && (forall j :: 0 <= j < |n.plan| ==> Accounted(n.plan[j]))
  }

  lemma AdmitMembers(s: seq<Bundle>, cap: real, b: Bundle)
    requires Load(s) as real <= cap && |s| <= QUEUE_MAX
    ensures forall x :: x in Admit(s, cap, b).queue ==> x in s || x == b
  {
    AdmitEffect(s, cap, b);
    hide Admit, Evictable, Victim;
    forall x | x in Admit(s, cap, b).queue ensures x in s || x == b {
      assert x in multiset(Admit(s, cap, b).queue);
    }
  }

  lemma GenerateKeeps(n: Node, dst: NodeId, cls: U8, msg: seq<bv8>, now: bv32)
    requires NodeOk(n)
    ensures NodeOk(Generate(n, dst, cls, msg, now).0)
  {
    var b := NewBundle(n, dst, cls, msg, now);
    AdmitEffect(n.queue, n.cap, b);
    AdmitMembers(n.queue, n.cap, b);
  }

  /** Taking custody of an encodable bundle keeps the node's parts in order. */
  lemma TakeOverKeeps(n: Node, b: Bundle, t: real)
    requires NodeOk(n) && Carriable(b)
    ensures NodeOk(n.(records := Transferred(n.records, b.id, n.self, t, n.period),
                      queue := Admit(n.queue, n.cap, TakenOver(n, b)).queue))
  {
    hide Frame, Transferred, Admit, Load, TableOk, Accounted, Recordable, Evictable, Victim;
    TransferKeepsTable(n.records, b.id, n.self, t, n.period);
    AdmitEffect(n.queue, n.cap, TakenOver(n, b));
    AdmitMembers(n.queue, n.cap, TakenOver(n, b));
  }

  lemma ReleaseKeepsNode(n: Node, id: BundleId)
    requires NodeOk(n)
    ensures NodeOk(n.(records := Released(n.records, id)))
  {
    hide Released, Load, TableOk, Accounted, Carriable;
    ReleaseKeepsTable(n.records, id);
  }

  lemma ReceiveKeeps(n: Node, t: real, f: seq<bv8>, w: World)
    requires NodeOk(n)
    ensures NodeOk(Receive(n, t, f, w).0)
  {
    hide Parse, Frame, Acceptable, Transferred, Released, Admit, Load, TableOk, Accounted, TakenOver, Carriable, NodeOk;
    if Parse(f).Accepted? {
      var b := Parse(f).bundle;
      DecodedCarriable(f, b);
      TakeOverKeeps(n, b, t);
      ReleaseKeepsNode(n, b.id);
      CountersAside(n, Receive(n, t, f, w).0, b, t);
    }
  }

  lemma DecodedCarriable(f: seq<bv8>, b: Bundle)
    requires Parse(f) == Accepted(b)
    ensures Carriable(b)
  {
    hide Parse, Frame;
    EncodeOfDecode(f, b);
  }

  /** The node invariant does not look at the statistics. */
  lemma CountersAside(n: Node, n': Node, b: Bundle, t: real)
    requires NodeOk(n) && n'.self == n.self && n'.plan == n.plan && n'.cap == n.cap
    requires
      || (n'.queue == n.queue && n'.records == n.records)
      || (n'.queue == n.queue && n'.records == Released(n.records, b.id))
      || (n'.queue == Admit(n.queue, n.cap, TakenOver(n, b)).queue
          && n'.records == Transferred(n.records, b.id, n.self, t, n.period))
    requires NodeOk(n.(records := Released(n.records, b.id)))
    requires NodeOk(n.(records := Transferred(n.records, b.id, n.self, t, n.period),
                       queue := Admit(n.queue, n.cap, TakenOver(n, b)).queue))
    ensures NodeOk(n')
  {
    hide Released, Transferred, Admit, TakenOver, Load, TableOk, Accounted, Carriable;
  }

  lemma BeheadParts(n: Node, t: real, w: World)
    requires n.queue != []
    ensures multiset(n.queue) == multiset(Behead(n, t, w)) + multiset{Head(n, t, w)}
    ensures Load(Behead(n, t, w)) == Load(n.queue) - Head(n, t, w).size
    ensures |Behead(n, t, w)| == |n.queue| - 1 && Head(n, t, w) in n.queue
    ensures forall x :: x in Behead(n, t, w) ==> x in n.queue
  {
    hide Best, SwapRemove;
    var i := Best(n.queue, t, w.val);
    SwapRemoveMultiset(n.queue, i);
    SwapRemoveLoad(n.queue, i);
    SwapRemoveLength(n.queue, i);
    forall x | x in Behead(n, t, w) ensures x in n.queue {
      assert x in multiset(Behead(n, t, w));
    }
  }

  /** Putting the popped bundle back always succeeds, and evicts nothing. */
  lemma RequeueAppends(n: Node, t: real, w: World)
    requires NodeOk(n) && n.queue != []
    ensures Admit(Behead(n, t, w), n.cap, Head(n, t, w)) == Admission(Behead(n, t, w) + [Head(n, t, w)], 0)
  {
    hide Best, SwapRemove;
    BeheadParts(n, t, w);
    hide Head, Behead, Load;
    RoomMeansAppend(Behead(n, t, w), n.cap, Head(n, t, w));
  }

  /** The queue keeps its bundles or loses exactly one, which had expired or was sent alive in a
      frame that decodes to it and is as long as its size. */
  ghost predicate OneLeaves(n: Node, t: real, n': Node, ev: Ticked, w: World) {
    match ev
    case Idle => n'.queue == n.queue
    case Lapsed(b) => multiset(n.queue) == multiset(n'.queue) + multiset{b} && !IsAlive(b, t, w.val)
    case Kept(b, _) => multiset(n'.queue) == multiset(n.queue)
    case Sent(b, _, frame) =>
      && multiset(n.queue) == multiset(n'.queue) + multiset{b} && IsAlive(b, t, w.val)
      && Parse(frame) == Accepted(b.(run := RESET)) && |frame| == b.size
  }

  lemma AttemptConserves(n: Node, t: real, n': Node, ev: Ticked, w: World)
    requires NodeOk(n) && Attempt(n, t, n', ev, w)
    ensures OneLeaves(n, t, n', ev, w)
  {
    hide Frame, Parse, IsAlive, Behead, Head, FirstHop, GoesBack, Load, Admit;
    if n.queue != [] {
      BeheadParts(n, t, w);
      RequeueAppends(n, t, w);
      assert Carriable(Head(n, t, w));
    }
    if ev.Sent? {
      SentFrame(ev.b);
    }
  }

  lemma SentFrame(b: Bundle)
    requires Carriable(b)
    ensures Parse(Frame(b)) == Accepted(b.(run := RESET)) && |Frame(b)| == b.size
  {
    hide Frame, Parse;
    DecodeOfEncode(b);
    assert b.(size := FrameLength(b), run := RESET) == b.(run := RESET);
  }

  lemma AttemptKeeps(n: Node, t: real, n': Node, ev: Ticked, w: World)
    requires NodeOk(n) && Attempt(n, t, n', ev, w)
    ensures NodeOk(n')
  {
    hide Frame, IsAlive, Behead, Head, FirstHop, GoesBack, Load, TableOk, Accounted, Carriable, Released, Admit;
    if n.queue != [] {
      BeheadParts(n, t, w);
      RequeueAppends(n, t, w);
      LoadAppend(Behead(n, t, w), Head(n, t, w));
      ReleaseKeepsTable(n.records, Head(n, t, w).id);
    }
    if ev.Sent? {
      ConsumeKeepsAccounts(n.plan[ev.contact], ev.b.size as real, t);
    }
  }

  lemma SweepMembers(s: seq<Record>, t: real)
    requires TableOk(s)
    ensures forall r :: r in Swept(s, t) <==> r in s && t < r.timeout
  {
    hide TableOk, Swept;
    SweepExact(s, t);
    forall r: Record ensures r in Swept(s, t) <==> r in s && t < r.timeout {
      assert r in Swept(s, t) <==> multiset(Swept(s, t))[r] > 0;
      assert r in s <==> multiset(s)[r] > 0;
    }
  }

  lemma SweepKeepsNode(n: Node, t: real)
    requires NodeOk(n)
    ensures NodeOk(n.(records := Swept(n.records, t)))
  {
    hide Swept, TableOk;
    SweepExact(n.records, t);
    SweepMembers(n.records, t);
  }

  /** A tick either keeps the queue's bundles or removes exactly one, which had expired or was
      sent alive; a sent frame is the bundle's own and as long as its size. */
  lemma TickConserves(n: Node, t: real, n': Node, ev: Ticked, w: World)
    requires NodeOk(n) && TickStep(n, t, n', ev, w)
    ensures OneLeaves(n, t, n', ev, w)
  {
    hide Attempt, NodeOk, Parse, IsAlive, Swept;
    SweepKeepsNode(n, t);
    AttemptConserves(n.(records := Swept(n.records, t)), t, n', ev, w);
  }

  /** What a node sends leaves over a contact of its own. */
  lemma SendsOverOwn(n: Node, t: real, n': Node, ev: Ticked, w: World)
    requires NodeOk(n) && TickStep(n, t, n', ev, w) && ev.Sent?
    ensures ev.contact < |n.plan| && n.plan[ev.contact].frm == n.self
  {
    hide FirstHop, Frame, Swept, Load, TableOk, Accounted, Carriable, IsAlive, IsFeasibleFor, Best, SwapRemove;
    var swept := n.(records := Swept(n.records, t));
    BeheadParts(swept, t, w);
    FirstHopIsOwn(swept.(queue := Behead(swept, t, w)), Head(swept, t, w), t, ev.contact, w);
  }

  lemma TickKeeps(n: Node, t: real, n': Node, ev: Ticked, w: World)
    requires NodeOk(n) && TickStep(n, t, n', ev, w)
    ensures NodeOk(n')
  {
    hide Attempt, NodeOk, Swept;
    SweepKeepsNode(n, t);
    AttemptKeeps(n.(records := Swept(n.records, t)), t, n', ev, w);
  }
}
