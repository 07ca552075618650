/** Two small episodes that show what a custody record does not promise. */
module Episodes {
  import opened Bundles
  import opened Contacts
  import CgrLimits
  import opened CgrModel
  import CgrSearch
  import opened CgrSelect
  import opened Codec
  import opened Queues
  import opened Custodies
  import opened NodeModel
  import opened Network
  import opened Flooding

  const CFG: Config := Config(10, 16, 1.0, 0.5, 0.3, true)

  predicate Clock(w: World) { w.val(0) == 0.0 && w.val(TTL_ONE_HOUR) == 3600.0 }

  /** Node 1, with one contact to node 3. */
  function Sender(): Node {
    Node(1, [CgrLimits.Link(1, 3)], CFG, [], 50.0, "accept", [], TIMEOUT_DEFAULT, 1, 0, 0, 0)
  }

  /** Node 2, which plans no contact and overhears. */
  function Listener(records: seq<Record>, cap: real): Node {
    Node(2, [], CFG, [], cap, "accept", records, TIMEOUT_DEFAULT, 1, 0, 0, 0)
  }

  /** A housekeeping bundle of 45 bytes from node 1 to node 3. */
  function Mail(): Bundle { NewBundle(Sender(), 3, 0, [], 0) }

  /** The same as node 2 takes it over. */
  function Overheard(records: seq<Record>): Bundle {
    TakenOver(Listener(records, 0.0), Mail().(run := RESET))
  }

  lemma MailFacts(w: World)
    requires Clock(w)
    ensures Mail().size == 45 && Mail().dst == 3 && Mail().curr == 1 && Mail().cls == 0 && Carriable(Mail())
    ensures Parse(Frame(Mail())) == Accepted(Mail().(run := RESET))
    ensures IsAlive(Mail(), 0.0, w.val) && TExp(Mail(), w.val) == 3600.0 && Mail().id == MakeId(1, 1)
  {
    hide Parse, Frame, MakeId;
    SentFrame(Mail());
  }

  lemma OneLoad(b: Bundle)
    ensures Load([b]) == b.size && Load([]) == 0
  {
    assert [b][..0] == [];
  }

  /** Node 2 takes custody of what it overhears as long as it has the bytes free. */
  lemma ListenerTakes(w: World, n: Node)
    requires Clock(w) && n.self == 2 && n.policy == "accept" && |n.queue| < QUEUE_MAX
    requires Free(n.queue, n.cap) >= 45.0 && forall r :: r in n.records ==> r.id != MakeId(1, 1)
    ensures var out := Receive(n, 0.0, Frame(Mail()), w); var b := TakenOver(n, Mail().(run := RESET));
      && out.1 == InCustody(b, 0) && out.0.queue == n.queue + [b]
      && out.0.records == Transferred(n.records, Mail().id, 2, 0.0, n.period)
      && out.0 == n.(rx := n.rx + 1, queue := out.0.queue, records := out.0.records)
  {
    MailFacts(w);
    hide Parse, Frame, MakeId, Transferred, Free, Mail, IsAlive, Receive, Acceptable, TakenOver, Admit;
    var b := Mail().(run := RESET);
    SameClocks(Mail(), b, w);
    MailAcceptable(w, n, b);
    CustodyTaken(n, 0.0, Frame(Mail()), w, b);
    TakenSize(n, b);
    RoomMeansAppend(n.queue, n.cap, TakenOver(n, b));
  }

  lemma MailAcceptable(w: World, n: Node, b: Bundle)
    requires IsAlive(b, 0.0, w.val) && b.size == 45 && Free(n.queue, n.cap) >= 45.0 && n.policy == "accept"
    requires forall r :: r in n.records ==> r.id != b.id
    ensures Acceptable(n.records, b, n.self, 0.0, Free(n.queue, n.cap), n.policy, w.val)
  {
    hide IsAlive, Free;
    assert "accept"[0] == 'a' && "rej"[0] == 'r';
  }

  /** What taking custody does, whatever made it acceptable. */
  lemma CustodyTaken(n: Node, t: real, f: seq<bv8>, w: World, b: Bundle)
    requires Parse(f) == Accepted(b) && b.dst != n.self
    requires Acceptable(n.records, b, n.self, t, Free(n.queue, n.cap), n.policy, w.val)
    ensures var r := Admit(n.queue, n.cap, TakenOver(n, b));
      Receive(n, t, f, w)
      == (n.(rx := n.rx + 1, records := Transferred(n.records, b.id, n.self, t, n.period), queue := r.queue),
          InCustody(TakenOver(n, b), r.code))
  {
    hide Parse, Acceptable, TakenOver, Admit, Transferred, Free, Released;
  }

  lemma SameClocks(b: Bundle, c: Bundle, w: World)
    requires b.tGen == c.tGen && b.ttl == c.ttl
    ensures IsAlive(b, 0.0, w.val) == IsAlive(c, 0.0, w.val)
  {
  }

  // ---- A full table takes the same frame twice ----

  /** Thirty-two records of other bundles. */
  function FullTable(): seq<Record> { seq(32, i requires 0 <= i < 32 => OtherRecord(i)) }

  function OtherRecord(i: nat): Record
    requires i < 32
  {
    var low := NatByte(i);
    Record(low as bv64, 2, 0.0, TIMEOUT_DEFAULT)
  }

  lemma WideBytes(a: bv8, b: bv8)
    ensures a as bv64 == b as bv64 ==> a == b
    ensures a as bv64 != MakeId(1, 1)
  {
  }

  lemma FullTableOk()
    ensures |FullTable()| == 32 && TableOk(FullTable()) && forall r :: r in FullTable() ==> r.id != MakeId(1, 1)
  {
    hide MakeId, NatByte;
    var s := FullTable();
    forall i, j | 0 <= i < j < 32 ensures s[i].id != s[j].id {
      WideBytes(NatByte(i), NatByte(j));
    }
    forall i | 0 <= i < 32 ensures s[i].id != MakeId(1, 1) {
      WideBytes(NatByte(i), NatByte(i));
    }
  }

  /** A node whose table is full of other bundles' records accepts one frame twice at one time. */
  lemma FullTableTakesTwice(w: World)
    requires Clock(w)
    ensures var n := Listener(FullTable(), 100.0); var f := Frame(Mail()); var once := Receive(n, 0.0, f, w);
      NodeOk(n) && once.1.InCustody? && Receive(once.0, 0.0, f, w).1.InCustody?
  {
    hide Parse, Frame, MakeId, FullTable, TakenOver, Mail;
    var n := Listener(FullTable(), 100.0);
    FullTableOk();
    MailFacts(w);
    ListenerTakes(w, n);
    var n' := Receive(n, 0.0, Frame(Mail()), w).0;
    var b := TakenOver(n, Mail().(run := RESET));
    assert n'.queue == [b] && b.size == 45 by { TakenSize(n, Mail().(run := RESET)); }
    OneLoad(b);
    assert n'.records == FullTable() by { FullStays(FullTable(), Mail().id, 2, 0.0, n.period); }
    ListenerTakes(w, n');
  }

  lemma TakenSize(n: Node, b: Bundle)
    ensures TakenOver(n, b).size == b.size && TakenOver(n, b).id == b.id && TakenOver(n, b).cls == b.cls
  {
  }

  lemma FullStays(s: seq<Record>, id: BundleId, node: NodeId, t: real, period: real)
    requires |s| == CUSTODY_MAX && forall r :: r in s ==> r.id != id
    ensures Transferred(s, id, node, t, period) == s
  {
    assert forall k :: 0 <= k < |s| ==> s[k] in s && s[k].id != id;
  }

  // ---- A record whose bundle is gone ----

  /** Node 1 once it has generated the bundle, and once it has sent it. */
  function Loaded(): Node { Generate(Sender(), 3, 0, [], 0).0 }

  function Done(): Node {
    Loaded().(queue := [], plan := [Consume(CgrLimits.Link(1, 3), 45.0)], tx := 1)
  }

  /** Node 2 once it has overheard the frame, and once it has generated a COMMAND bundle itself. */
  function Holding(w: World): Node { Receive(Listener([], 50.0), 0.0, Frame(Mail()), w).0 }

  function Overtaken(w: World): Node { Generate(Holding(w), 3, COMMAND, [], 0).0 }

  lemma LoadedQueue()
    ensures Loaded().queue == [Mail()] && Loaded() == Sender().(queue := [Mail()], counter := NextCount(1))
  {
    hide MakeId;
    OneLoad(Mail());
    RoomMeansAppend([], 50.0, Mail());
  }

  /** The search from node 1 answers with the direct contact. */
  lemma DirectRoute(w: World, n: Node)
    requires Clock(w) && n.plan == Sender().plan && n.cfg == CFG
    ensures FirstHop(n, Mail(), 0.0, 0, w)
  {
    var q := RouteQuery(n, Mail(), 0.0, w);
    assert Direct(q) by { MailQuery(w, n); }
    hide Mail, Sender, RouteQuery, Answered, Cost, Clock, Direct;
    DirectAnswer(q);
    var route := Candidate(q, [0]);
    assert Choosable(q, route) && route.hops == [0];
  }

  lemma MailQuery(w: World, n: Node)
    requires Clock(w) && n.plan == Sender().plan && n.cfg == CFG
    ensures Direct(RouteQuery(n, Mail(), 0.0, w))
  {
    MailFacts(w);
    hide Mail, CgrLimits.Link, Frame, Parse, MakeId;
  }

  /** Forty-five bytes from node 1 to node 3 over their one contact. */
  predicate Direct(q: Query) {
    && q.cs == [CgrLimits.Link(1, 3)] && q.size == 45 && q.curr == 1 && q.dst == 3
    && q.tExp == 3600.0 && q.t == 0.0
  }

  lemma DirectWalk(q: Query)
    requires Direct(q)
    ensures InPlan(q, [0]) && Walk(q, [0]) && End(q, [0]) == 3 && VisitedOf(q, [0]) == [1] && Usable(q, 0, 0.0)
  {
    var none: Path := [];
    assert Usable(q, 0, 0.0);
    hide Usable;
    Extend(q, none, 0);
    assert none + [0] == [0];
  }

  lemma DirectAnswer(q: Query)
    requires Direct(q)
    ensures InPlan(q, [0]) && Answered(q, CgrSearch.Found(Candidate(q, [0])))
  {
    hide Usable, Candidate, HopArrival;
    DirectWalk(q);
    var X: set<Path> := {[0]};
    var tr := CgrSearch.Trail(X, multiset{});
    assert CgrModel.Accepted(q, [0], X);
    forall s: nat ensures CgrSearch.Progress(q, CgrSearch.Upto(X, s), []) {
      assert CgrSearch.Upto(X, s) == X;
    }
    var table: CgrSearch.Table := [];
    assert CgrSearch.TableOk(q, table, X) && CgrSearch.AllCovered(q, table, X);
    assert CgrSearch.Progress(q, X, []);
    assert CgrSearch.Explored(q, tr);
    assert CgrSearch.Answers(q, CgrSearch.Found(Candidate(q, [0])), tr);
  }

  /** A node with one live bundle and an open first contact may send it. */
  lemma SendsOnly(n: Node, n': Node, b: Bundle, t: real, w: World)
    requires n.queue == [b] && n.records == [] && n.plan != [] && IsAlive(b, t, w.val) && Encodable(b)
    requires FirstHop(n.(queue := []), b, t, 0, w) && IsFeasibleFor(n.plan[0], b.size as real, t)
    requires n' == n.(queue := [], plan := n.plan[0 := Consume(n.plan[0], b.size as real)], tx := n.tx + 1)
    ensures TickStep(n, t, n', Sent(b, 0, Frame(b)), w)
  {
    hide Head, Behead, Frame, FirstHop, IsAlive, IsFeasibleFor, Consume;
    assert n.(records := Swept(n.records, t)) == n;
    HeadOfOne(n, b, t, w);
  }

  lemma LoadedParts()
    ensures var n, c := Loaded(), CgrLimits.Link(1, 3);
      && n.queue == [Mail()] && n.records == [] && n.plan == [c] == Sender().plan && n.cfg == CFG
      && Done() == n.(queue := [], plan := n.plan[0 := Consume(c, 45.0)], tx := n.tx + 1)
    ensures Mail().size == 45 && Encodable(Mail())
  {
    LoadedQueue();
    hide Loaded, MakeId, NextCount, Consume, CgrLimits.Link;
  }

  /** Node 1 sends the bundle and its queue is empty. */
  lemma MailSent(w: World)
    requires Clock(w)
    ensures TickStep(Loaded(), 0.0, Done(), Sent(Mail(), 0, Frame(Mail())), w)
  {
    hide *;
    MailFacts(w);
    LoadedParts();
    var n := Loaded();
    DirectRoute(w, n.(queue := []));
    LinkFits();
    SendsOnly(n, Done(), Mail(), 0.0, w);
  }

  lemma HeadOfOne(n: Node, b: Bundle, t: real, w: World)
    requires n.queue == [b]
    ensures Head(n, t, w) == b && Behead(n, t, w) == []
  {
  }

  lemma LinkFits()
    ensures IsFeasibleFor(CgrLimits.Link(1, 3), 45.0, 0.0)
  {
  }

  /** The whole network: node 1 generates and sends, node 2 overhears and takes custody, then
      generates a COMMAND bundle of its own for which the custody bundle is evicted. */
  function States(w: World): seq<Net> {
    var ear, f := Listener([], 50.0), Frame(Mail());
    var log1 := OriginateLog(Sender(), 0, Mail());
    var log2 := log1 + TurnLog(0, Sent(Mail(), 0, f));
    var log3 := log2 + HearLog(1, 0.0, Receive(ear, 0.0, f, w).1);
    var log4 := log3 + OriginateLog(Holding(w), 1, NewBundle(Holding(w), 3, COMMAND, [], 0));
    [Net([Sender(), ear], {}, 0.0, []),
     Net([Loaded(), ear], {}, 0.0, log1),
     Net([Done(), ear], {f}, 0.0, log2),
     Net([Done(), Holding(w)], {f}, 0.0, log3),
     Net([Done(), Overtaken(w)], {f}, 0.0, log4)]
  }

  ghost function Actions(): seq<Action> {
    [Originate(0, 3, 0, [], 0), Turn(0, 0.0, Done(), Sent(Mail(), 0, Frame(Mail()))),
     Hear(1, 0.0, Frame(Mail())), Originate(1, 3, COMMAND, [], 0)]
  }

  lemma EpisodeStarts(w: World)
    ensures Start(States(w)[0])
  {
    hide Frame, Mail, Holding, Overtaken, Loaded, Done, OriginateLog, HearLog, Receive;
    var c := CgrLimits.Link(1, 3);
    assert Capacity(c) >= 0.0;
    assert FreshNode(Sender()) && FreshNode(Listener([], 50.0));
  }

  lemma EpisodeSteps(w: World, k: nat)
    requires Clock(w) && k < 4
    ensures Step(w, States(w)[k], States(w)[k + 1], Actions()[k])
  {
    hide Frame, OriginateLog, HearLog, Receive, Admit, TickStep, MakeId, Done;
    MailSent(w);
    ListenerTakes(w, Listener([], 50.0)) by { OneLoad(Mail()); }
    var s, s' := States(w)[k], States(w)[k + 1];
    if k == 0 {
      assert s'.nodes == s.nodes[0 := Loaded()];
    } else if k == 1 {
      assert s'.nodes == s.nodes[0 := Done()] && s'.air == s.air + {Frame(Mail())};
    } else if k == 2 {
      assert s'.nodes == s.nodes[1 := Holding(w)] && Reaching(s.air, Frame(Mail()));
    } else {
      assert s'.nodes == s.nodes[1 := Overtaken(w)];
    }
  }

  lemma EpisodeRuns(w: World)
    requires Clock(w)
    ensures Run(w, States(w), Actions())
  {
    hide States, Actions, Step, Start;
    EpisodeStarts(w);
    EpisodeLength(w);
    forall k | 0 <= k < 4 ensures Step(w, States(w)[k], States(w)[k + 1], Actions()[k]) {
      EpisodeSteps(w, k);
    }
  }

  lemma EpisodeLength(w: World)
    ensures |States(w)| == 5 && |Actions()| == 4
  {
    hide Frame, Mail, Holding, Overtaken, Loaded, Done, OriginateLog, HearLog, Receive;
  }

  lemma HoldingParts(w: World)
    requires Clock(w)
    ensures var b := Overheard([]);
      && Holding(w).queue == [b] && Holding(w).records == [Record(Mail().id, 2, 0.0, TIMEOUT_DEFAULT)]
      && Holding(w).self == 2 && Holding(w).cap == 50.0 && Holding(w).counter == 1
      && b.size == 45 && b.cls == 0 && b.id == Mail().id
  {
    MailFacts(w);
    OneLoad(Mail());
    ListenerTakes(w, Listener([], 50.0));
    hide MakeId, Frame, Receive;
  }

  /** The custody bundle gives way to the COMMAND bundle; its record stays. */
  lemma OvertakenParts(w: World)
    requires Clock(w)
    ensures var e := NewBundle(Holding(w), 3, COMMAND, [], 0);
      && Overtaken(w).queue == [e] && Overtaken(w).records == Holding(w).records && e.id == MakeId(2, 1)
  {
    hide Holding, Overheard, Mail, MakeId;
    HoldingParts(w);
    var b, e := Overheard([]), NewBundle(Holding(w), 3, COMMAND, [], 0);
    OneLoad(b);
    AdmitOver(b, e);
  }

  lemma AdmitOver(b: Bundle, e: Bundle)
    requires b.size == 45 && b.cls == 0 && e.size == 45 && e.cls == COMMAND
    ensures Admit([b], 50.0, e) == Admission([e], 1)
  {
    OneLoad(b);
    assert [b][..0] == [] && Victim([], e) == -1 && Victim([b], e) == 0 && SwapRemove([b], 0) == [];
    assert [] + [e] == [e];
  }

  /** A run after which node 2 holds the custody record of a bundle that no node has queued. */
  lemma RecordOutlivesBundle(w: World)
    requires Clock(w)
    ensures Run(w, States(w), Actions()) && |States(w)| == 5
    ensures var s := States(w)[4];
      && |s.nodes| == 2 && (exists r :: r in s.nodes[1].records && r.id == Mail().id && s.now < r.timeout)
      && forall i, b :: 0 <= i < 2 && b in s.nodes[i].queue ==> b.id != Mail().id
  {
    hide *;
    EpisodeRuns(w);
    LastState(w);
    OvertakenParts(w);
    HoldingParts(w);
    MailFacts(w);
    TwoMints();
    var s := States(w)[4];
    assert s.nodes[1].records[0] in s.nodes[1].records;
  }

  lemma LastState(w: World)
    ensures |States(w)| == 5 && States(w)[4].nodes == [Done(), Overtaken(w)] && Done().queue == []
    ensures States(w)[4].now == 0.0 < TIMEOUT_DEFAULT
  {
    hide Frame, Mail, Holding, Overtaken, Loaded, OriginateLog, HearLog, Receive;
  }

  lemma TwoMints()
    ensures MakeId(2, 1) != MakeId(1, 1)
  {
  }
}
