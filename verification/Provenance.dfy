/** Where bundles come from: whatever is queued, in the air or delivered, after any number of hops,
    losses, duplicates and damaged receptions, is one bundle some node generated. */
module Provenance {
  import opened Bundles
  import opened Codec
  import opened Bursts
  import opened Queues
  import opened Custodies
  import opened NodeModel
  import opened Network

  /** `b` stems from a logged generation: same identifier, endpoints, class, priority, times and payload. */
  ghost predicate Known(log: seq<Entry>, b: Bundle) {
    exists k :: 0 <= k < |log| && MadeAs(log[k], b)
  }

  predicate MadeAs(e: Entry, b: Bundle) { e.Made? && SameOrigin(e.b, b) }

  /** Every bundle queued, in the air or in the log stems from a generation. */
  ghost predicate Traced(s: Net) {
    && (forall i, b :: 0 <= i < |s.nodes| && b in s.nodes[i].queue ==> Known(s.log, b))
    && (forall f :: f in s.air ==> Parse(f).Accepted? && Known(s.log, Parse(f).bundle))
    && (forall e :: e in s.log ==> Known(s.log, e.b))
  }

  lemma KnownLater(log: seq<Entry>, log': seq<Entry>, b: Bundle)
    requires Known(log, b) && log <= log'
    ensures Known(log', b)
  {
    var k :| 0 <= k < |log| && MadeAs(log[k], b);
    assert log'[k] == log[k];
  }

  lemma KnownSame(log: seq<Entry>, b: Bundle, c: Bundle)
    requires Known(log, b) && SameOrigin(b, c)
    ensures Known(log, c)
  {
    var k :| 0 <= k < |log| && MadeAs(log[k], b);
    assert MadeAs(log[k], c);
  }

  lemma {:induction false} EnteredIsLogged(log: seq<Entry>, i: nat, b: Bundle)
    requires b in EnteredAt(log, i)
    ensures exists e :: e in log && e.b == b
  {
    var pre, e := log[..|log| - 1], log[|log| - 1];
    if b in EnteredAt(pre, i) {
      EnteredIsLogged(pre, i, b);
      var x :| x in pre && x.b == b;
      assert x in log;
    } else {
      assert e in log && e.b == b;
    }
  }

  /** Whatever short damage the channel does, a frame arrives as it was sent, is rejected, or was
      hit in the checksum's one blind spot. */
  lemma IntactRejectedOrBlind(air: set<seq<bv8>>, f: seq<bv8>)
    requires Heard(air, f) && forall g :: g in air ==> Parse(g).Accepted?
    ensures f in air || Parse(f).Rejected? || exists g :: g in air && BlindSpot(g, f)
  {
    hide Parse, ShortBurst, BlindSpot;
    if f !in air {
      var g, from, len :| g in air && ShortBurst(g, f, from, len);
      ShortBurstNoticed(g, Parse(g).bundle, f, from, len);
    }
  }

  lemma IntactOrRejected(air: set<seq<bv8>>, f: seq<bv8>)
    requires Reaching(air, f) && forall g :: g in air ==> Parse(g).Accepted?
    ensures f in air || Parse(f).Rejected?
  {
    hide Parse, ShortBurst, BlindSpot;
    if f !in air {
      var g, from, len :| g in air && ShortBurst(g, f, from, len) && !BlindSpot(g, f);
      ShortBurstNoticed(g, Parse(g).bundle, f, from, len);
    }
  }

  lemma OriginateKnown(s: Net, i: nat, b: Bundle, log': seq<Entry>, e: Entry)
    requires i < |s.nodes| && Traced(s) && e in OriginateLog(s.nodes[i], i, b)
    requires log' == s.log + OriginateLog(s.nodes[i], i, b)
    ensures Known(log', e.b)
  {
    hide Admit, Free, Victim;
    var k :| |s.log| <= k < |log'| && log'[k] == e;
    if e.Made? {
      assert MadeAs(log'[k], e.b);
    } else {
      assert e.b in s.nodes[i].queue;
      KnownLater(s.log, log', e.b);
    }
  }

  lemma HearKnown(w: World, s: Net, i: nat, t: real, f: seq<bv8>, log': seq<Entry>, e: Entry)
    requires i < |s.nodes| && Traced(s) && Reaching(s.air, f) && s.log <= log'
    requires e in HearLog(i, t, Receive(s.nodes[i], t, f, w).1)
    ensures Known(log', e.b)
  {
    hide Parse, Reaching, Receive, Traced, Known;
    FramesParse(s);
    IntactOrRejected(s.air, f);
    ReceivedOrigin(s.nodes[i], t, f, w);
    var b := Parse(f).bundle;
    assert Known(s.log, b) by { AirKnown(s, f); }
    KnownLater(s.log, log', b);
    KnownSame(log', b, e.b);
  }

  lemma FramesParse(s: Net)
    requires Traced(s)
    ensures forall f :: f in s.air ==> Parse(f).Accepted?
  {
    hide Parse, Known;
  }

  lemma AirKnown(s: Net, f: seq<bv8>)
    requires Traced(s) && f in s.air
    ensures Parse(f).Accepted? && Known(s.log, Parse(f).bundle)
  {
    hide Parse, Known;
  }

  /** What a node does with a frame, it does with the frame's own bundle. */
  lemma ReceivedOrigin(n: Node, t: real, f: seq<bv8>, w: World)
    ensures var r := Receive(n, t, f, w).1;
      r.BadFrame? <==> Parse(f) == Rejected
    ensures var r := Receive(n, t, f, w).1;
      !r.BadFrame? ==> SameOrigin(Parse(f).bundle, r.b)
  {
    hide Parse, Acceptable, Admit, Released, Transferred, Recordable, Free;
  }

  /** The bundles of the entries a step adds stem from a generation. */
  lemma AddedKnown(w: World, s: Net, s': Net, a: Action, e: Entry)
    requires NodesOk(s) && Traced(s) && Step(w, s, s', a) && s.log <= s'.log && e in Added(s, s')
    ensures Known(s'.log, e.b)
  {
    hide Parse, NodeOk, Traced, Known, Receive, TickStep, OriginateLog, NewBundle, HearLog, Generate, Reaching;
    var n := s.nodes[a.i];
    if a.Originate? {
      OriginateKnown(s, a.i, NewBundle(n, a.dst, a.cls, a.msg, a.stamp), s'.log, e);
    } else if a.Hear? {
      HearKnown(w, s, a.i, a.t, a.f, s'.log, e);
    } else {
      ServedFromQueue(w, n, a.t, a.n, a.ev);
      QueueKnown(s, a.i, e.b);
      KnownLater(s.log, s'.log, e.b);
    }
  }

  lemma QueueKnown(s: Net, i: nat, b: Bundle)
    requires Traced(s) && i < |s.nodes| && b in s.nodes[i].queue
    ensures Known(s.log, b)
  {
  }

  lemma ServedFromQueue(w: World, n: Node, t: real, n': Node, ev: Ticked)
    requires TickStep(n, t, n', ev, w)
    ensures !ev.Idle? ==> ev.b in n.queue
    ensures ev.Sent? ==> Encodable(ev.b) && ev.frame == Frame(ev.b)
  {
    hide Frame, FirstHop, Swept, Released, Admit, SwapRemove;
  }

  lemma StepTraced(w: World, s: Net, s': Net, a: Action)
    requires NodesOk(s) && Traced(s) && Step(w, s, s', a)
    ensures Traced(s')
  {
    StepNode(w, s, s', a);
    StepBalance(w, s, s', a);
    var more := Added(s, s');
    forall e | e in s'.log ensures Known(s'.log, e.b) {
      if e in s.log {
        KnownLater(s.log, s'.log, e.b);
      } else {
        AddedKnown(w, s, s', a, e);
      }
    }
    forall i, b | 0 <= i < |s'.nodes| && b in s'.nodes[i].queue ensures Known(s'.log, b) {
      if i == a.i {
        QueueOrigin(s.nodes[i].queue, s'.nodes[i].queue, LeftAt(more, i), EnteredAt(more, i), b);
      }
      if i != a.i || b in s.nodes[i].queue {
        KnownLater(s.log, s'.log, b);
      } else {
        EnteredIsLogged(more, i, b);
      }
    }
    forall f | f in s'.air ensures Parse(f).Accepted? && Known(s'.log, Parse(f).bundle) {
      if f in s.air {
        KnownLater(s.log, s'.log, Parse(f).bundle);
      } else {
        AirborneKnown(w, s, s', a, f);
      }
    }
  }

  lemma QueueOrigin(was: seq<Bundle>, now: seq<Bundle>, left: seq<Bundle>, entered: seq<Bundle>, b: Bundle)
    requires multiset(now) + multiset(left) == multiset(was) + multiset(entered) && b in now
    ensures b in was || b in entered
  {
    assert b in multiset(now) + multiset(left);
  }

  lemma AirborneKnown(w: World, s: Net, s': Net, a: Action, f: seq<bv8>)
    requires NodesOk(s) && Traced(s) && Step(w, s, s', a) && s.log <= s'.log && f in s'.air && f !in s.air
    ensures Parse(f).Accepted? && Known(s'.log, Parse(f).bundle)
  {
    hide Parse, Frame, NodeOk, TickStep, Receive, Generate, OriginateLog, HearLog;
    var n, b := s.nodes[a.i], a.ev.b;
    ServedFromQueue(w, n, a.t, a.n, a.ev);
    DecodeOfEncode(b);
    KnownLater(s.log, s'.log, b);
    KnownSame(s'.log, b, Parse(f).bundle);
  }

  // ---- Identifiers are unique ----

  predicate Below(x: bv64, c: bv64) { x < c }

  predicate InRange(c: bv64) { c <= ID_RANGE }

  /** The generation `e` by node `n`: within its used counts, with the identifier made from the
      count, the node as source, the one-hour lifetime, a time stamp not in the future and one of
      the four classes. */
  ghost predicate MintedAt(w: World, n: Node, now: real, e: Entry) {
    e.Made? ==>
      && Below(e.count, n.counter) && e.b.id == MakeId(n.self, e.count) && e.b.src == n.self
      && w.val(e.b.tGen) <= now && e.b.ttl == TTL_ONE_HOUR && e.b.cls <= COMMAND
  }

  predicate SameCount(d: Entry, e: Entry) { d.Made? && e.Made? && d.at == e.at && d.count == e.count }

  ghost predicate Minted(w: World, s: Net) {
    && (forall i :: 0 <= i < |s.nodes| ==> InRange(s.nodes[i].counter))
    && (forall k :: 0 <= k < |s.log| ==> s.log[k].at < |s.nodes| && MintedAt(w, s.nodes[s.log[k].at], s.now, s.log[k]))
    && (forall j, k :: 0 <= j < k < |s.log| ==> !SameCount(s.log[j], s.log[k]))
  }

  lemma CountGrows(c: bv64)
    requires c < ID_RANGE
    ensures Below(c, NextCount(c)) && InRange(NextCount(c)) && !Below(c, c)
    ensures forall x :: Below(x, c) ==> Below(x, NextCount(c))
  {
  }

  /** A step's one generation, if any, is its last entry and uses the node's current count. */
  lemma AddedGeneration(w: World, s: Net, s': Net, a: Action, k: nat)
    requires Step(w, s, s', a) && s.log <= s'.log && |s.log| <= k < |s'.log| && s'.log[k].Made?
    ensures a.Originate? && a.i < |s.nodes| && a.cls <= COMMAND && k == |s'.log| - 1 && s'.now == w.val(a.stamp)
    ensures s'.log[k] == Made(a.i, s.nodes[a.i].counter, NewBundle(s.nodes[a.i], a.dst, a.cls, a.msg, a.stamp))
  {
    hide Receive, TickStep, Generate, NewBundle, Admit, Displaced, Reaching;
  }

  lemma StepCounter(w: World, s: Net, s': Net, a: Action)
    requires Step(w, s, s', a) && a.i < |s.nodes| && |s'.nodes| == |s.nodes|
    ensures a.Originate? ==> s.nodes[a.i].counter < ID_RANGE
    ensures s'.nodes[a.i].counter == if a.Originate? then NextCount(s.nodes[a.i].counter) else s.nodes[a.i].counter
  {
    hide Parse, Admit, NextCount, FirstHop, Reaching, Swept, Behead, Head, IsAlive, Acceptable, Displaced, Codec.Frame;
  }

  lemma StepMinted(w: World, s: Net, s': Net, a: Action)
    requires NodesOk(s) && Minted(w, s) && Step(w, s, s', a)
    ensures Minted(w, s')
  {
    hide Step, NodeOk, MakeId, NextCount, Below, InRange;
    StepNode(w, s, s', a);
    StepCounter(w, s, s', a);
    if a.Originate? {
      CountGrows(s.nodes[a.i].counter);
    }
    forall k | 0 <= k < |s'.log|
      ensures s'.log[k].at < |s'.nodes| && MintedAt(w, s'.nodes[s'.log[k].at], s'.now, s'.log[k])
    {
      if k < |s.log| {
        assert s'.log[k] == s.log[k];
      } else if s'.log[k].Made? {
        AddedGeneration(w, s, s', a, k);
      } else {
        assert s'.log[k] in s'.log;
      }
    }
    forall j, k | 0 <= j < k < |s'.log| ensures !SameCount(s'.log[j], s'.log[k]) {
      assert j < |s.log| ==> s'.log[j] == s.log[j];
      if k < |s.log| {
        assert s'.log[k] == s.log[k];
      } else if s'.log[k].Made? && s'.log[j].Made? {
        AddedGeneration(w, s, s', a, k);
        if j >= |s.log| {
          AddedGeneration(w, s, s', a, j);
        } else {
          assert MintedAt(w, s.nodes[s.log[j].at], s.now, s.log[j]);
        }
      }
    }
  }

  lemma UniqueIds(w: World, s: Net, j: nat, k: nat)
    requires NodesOk(s) && Minted(w, s) && j < |s.log| && k < |s.log|
    requires s.log[j].Made? && s.log[k].Made? && s.log[j].b.id == s.log[k].b.id
    ensures j == k
  {
    hide NodeOk, MakeId, Below, InRange;
    var d, e := s.log[j], s.log[k];
    assert MintedAt(w, s.nodes[d.at], s.now, d) && MintedAt(w, s.nodes[e.at], s.now, e);
    var m, n := s.nodes[d.at], s.nodes[e.at];
    SameIdSameMint(m.self, d.count, m.counter, n.self, e.count, n.counter);
    assert SameCount(d, e) && SameCount(e, d);
  }

  lemma SameIdSameMint(a: NodeId, x: bv64, c: bv64, b: NodeId, y: bv64, d: bv64)
    requires Below(x, c) && InRange(c) && Below(y, d) && InRange(d) && MakeId(a, x) == MakeId(b, y)
    ensures a == b && x == y
  {
    hide MakeId;
    MakeIdInjective(a, x, b, y);
  }

  // ---- Evictions ----

  /** Only bundles below COMMAND were ever evicted. */
  ghost predicate EvictionsLow(s: Net) { forall e :: e in s.log ==> !e.Evicted? || e.b.cls < COMMAND }

  lemma KnownClass(w: World, s: Net, b: Bundle)
    requires Minted(w, s) && Known(s.log, b)
    ensures b.cls <= COMMAND
  {
    hide MakeId, Below, InRange;
    var k :| 0 <= k < |s.log| && MadeAs(s.log[k], b);
    assert MintedAt(w, s.nodes[s.log[k].at], s.now, s.log[k]);
  }

  lemma AddedEviction(w: World, s: Net, s': Net, a: Action, e: Entry)
    requires NodesOk(s) && Traced(s) && Minted(w, s) && Step(w, s, s', a) && |s.log| <= |s'.log|
    requires e in Added(s, s') && e.Evicted?
    ensures e.b.cls < COMMAND
  {
    hide NodesOk, Minted, Traced, Admit, Receive, TickStep, Generate, Victim, Reaching;
    var n := s.nodes[a.i];
    assert a.Originate?;
    var b := NewBundle(n, a.dst, a.cls, a.msg, a.stamp);
    assert e.b in Displaced(n.queue, n.cap, b);
    VictimIsLowest(n.queue, b);
    QueueKnown(s, a.i, e.b);
    KnownClass(w, s, e.b);
  }

  lemma StepEvictionsLow(w: World, s: Net, s': Net, a: Action)
    requires NodesOk(s) && Traced(s) && Minted(w, s) && EvictionsLow(s) && Step(w, s, s', a)
    ensures EvictionsLow(s')
  {
    hide NodesOk, Minted, Traced, Step;
    StepBalance(w, s, s', a);
    forall e | e in s'.log && e.Evicted? ensures e.b.cls < COMMAND {
      if e !in s.log {
        assert e in Added(s, s');
        AddedEviction(w, s, s', a, e);
      }
    }
  }

  // ---- Over whole runs ----

  lemma {:induction false} RunKeeps(w: World, ss: seq<Net>, acts: seq<Action>, k: nat)
    requires Run(w, ss, acts) && k < |ss|
    ensures NodesOk(ss[k]) && Conserved(ss[k]) && Traced(ss[k]) && Minted(w, ss[k])
  {
    hide NodesOk, Conserved, Traced, Minted, Step;
    if k == 0 {
      StartKeeps(w, ss[0]);
    } else {
      RunKeeps(w, ss, acts, k - 1);
      assert Step(w, ss[k - 1], ss[k - 1 + 1], acts[k - 1]);
      StepNodesOk(w, ss[k - 1], ss[k], acts[k - 1]);
      StepConserves(w, ss[k - 1], ss[k], acts[k - 1]);
      StepTraced(w, ss[k - 1], ss[k], acts[k - 1]);
      StepMinted(w, ss[k - 1], ss[k], acts[k - 1]);
    }
  }

  lemma StartKeeps(w: World, s: Net)
    requires Start(s)
    ensures NodesOk(s) && Conserved(s) && Traced(s) && Minted(w, s)
  {
    hide NodeOk;
    StartNodesOk(s);
    forall i | 0 <= i < |s.nodes| ensures s.nodes[i].queue == [] && InRange(s.nodes[i].counter) {
      assert FreshNode(s.nodes[i]);
    }
  }

  /** `b` is queued somewhere, carried by a frame in the air, or named by the log. */
  ghost predicate Present(s: Net, b: Bundle) {
    || (exists i :: 0 <= i < |s.nodes| && b in s.nodes[i].queue)
    || (exists f :: f in s.air && Parse(f) == Accepted(b))
    || (exists e :: e in s.log && e.b == b)
  }

  /** Entry `k` generated `b`, and no other entry generated its identifier. */
  ghost predicate OnlyOrigin(log: seq<Entry>, b: Bundle, k: nat) {
    && k < |log| && MadeAs(log[k], b)
    && forall j :: 0 <= j < |log| && log[j].Made? && log[j].b.id == b.id ==> j == k
  }

  /** Provenance over every run: a bundle found anywhere agrees with exactly one generation on
      identifier, endpoints, class, priority, times and payload. */
  lemma OneOrigin(w: World, ss: seq<Net>, acts: seq<Action>, k: nat, b: Bundle)
    requires Run(w, ss, acts) && k < |ss| && Present(ss[k], b)
    ensures exists j :: OnlyOrigin(ss[k].log, b, j)
  {
    hide Run, Parse, Minted, NodesOk;
    RunKeeps(w, ss, acts, k);
    assert Known(ss[k].log, b);
    var log := ss[k].log;
    var j :| 0 <= j < |log| && MadeAs(log[j], b);
    forall i | 0 <= i < |log| && log[i].Made? && log[i].b.id == b.id ensures i == j {
      UniqueIds(w, ss[k], i, j);
    }
    assert OnlyOrigin(log, b, j);
  }

  lemma {:induction false} RunEvictionsLow(w: World, ss: seq<Net>, acts: seq<Action>, k: nat)
    requires Run(w, ss, acts) && k < |ss|
    ensures EvictionsLow(ss[k])
  {
    hide NodesOk, Traced, Minted, Conserved, Step;
    if k == 0 {
    } else {
      RunEvictionsLow(w, ss, acts, k - 1);
      RunKeeps(w, ss, acts, k - 1);
      assert Step(w, ss[k - 1], ss[k - 1 + 1], acts[k - 1]);
      StepEvictionsLow(w, ss[k - 1], ss[k], acts[k - 1]);
    }
  }

  /** Over every run a COMMAND bundle leaves a queue only by being sent or by expiring: evictions
      name bundles of lower classes only, and nothing else makes a bundle leave. */
  lemma CommandsSentOrAged(w: World, ss: seq<Net>, acts: seq<Action>, k: nat, i: nat, b: Bundle)
    requires Run(w, ss, acts) && k < |ss| && i < |ss[k].nodes| && b.cls == COMMAND
    ensures Evicted(i, b) !in ss[k].log
    ensures multiset(EnteredAt(ss[k].log, i))[b]
            == multiset(SentAt(ss[k].log, i))[b] + multiset(AgedAt(ss[k].log, i))[b] + multiset(ss[k].nodes[i].queue)[b]
  {
    hide Run, EnteredAt, LeftAt, SentAt, AgedAt;
    RunEvictionsLow(w, ss, acts, k);
    RunConserves(w, ss, acts, k, i);
    LeavesByClass(ss[k].log, i, b);
  }

  function SentAt(log: seq<Entry>, i: nat): seq<Bundle> {
    if log == [] then []
    else
      var e := log[|log| - 1];
      SentAt(log[..|log| - 1], i) + if e.at == i && e.Relayed? then [e.b] else []
  }

  function AgedAt(log: seq<Entry>, i: nat): seq<Bundle> {
    if log == [] then []
    else
      var e := log[|log| - 1];
      AgedAt(log[..|log| - 1], i) + if e.at == i && e.Aged? then [e.b] else []
  }

  lemma {:induction false} LeavesByClass(log: seq<Entry>, i: nat, b: Bundle)
    requires Evicted(i, b) !in log
    ensures multiset(LeftAt(log, i))[b] == multiset(SentAt(log, i))[b] + multiset(AgedAt(log, i))[b]
  {
    if log == [] {
    } else {
      var pre, e := log[..|log| - 1], log[|log| - 1];
      assert e in log;
      LeavesByClass(pre, i, b);
    }
  }

  /** Conservation over every run: at each node, what entered the queue is what was sent,
      expired or evicted plus what is still queued. */
  lemma RunConserves(w: World, ss: seq<Net>, acts: seq<Action>, k: nat, i: nat)
    requires Run(w, ss, acts) && k < |ss| && i < |ss[k].nodes|
    ensures multiset(EnteredAt(ss[k].log, i)) == multiset(LeftAt(ss[k].log, i)) + multiset(ss[k].nodes[i].queue)
  {
    hide Run;
    RunKeeps(w, ss, acts, k);
  }
}
