/** What the steps of a network do, said in terms of the frame, the clock and the tables alone, and
    what reaches the users over whole runs: exactly what was asked for. */
module Deliveries {
  import opened Bundles
  import opened Contacts
  import opened CgrModel
  import CgrSearch
  import opened CgrSelect
  import opened CgrTheorems
  import CgrWeights
  import opened Codec
  import opened Queues
  import opened Custodies
  import opened NodeModel
  import opened Network
  import opened Provenance
  import opened Flooding
  import opened Standing
  import opened Timetables

  // ---- Receiving ----

  /** The node's own part in a step that adds `more` to the log. */
  ghost predicate Outcome(s: Net, s': Net, i: nat, n': Node, more: seq<Entry>) {
    i < |s.nodes| && s'.nodes == s.nodes[i := n'] && s'.log == s.log + more
  }

  /** A frame that does not parse changes nothing but the clock. */
  lemma BadFrameIgnored(w: World, s: Net, s': Net, a: Action)
    requires Step(w, s, s', a) && a.Hear? && Parse(a.f).Rejected?
    ensures s'.nodes == s.nodes && s'.log == s.log && s'.air == s.air
  {
    hide Parse, Reaching;
  }

  /** A bundle that reaches its destination is delivered: logged, counted, and no custody record of
      it is left; nothing else changes. */
  lemma DeliveredAtDestination(w: World, s: Net, s': Net, a: Action, b: Bundle)
    requires NodesOk(s) && Step(w, s, s', a) && a.Hear? && Parse(a.f) == Accepted(b) && b.dst == s.nodes[a.i].self
    ensures var n := s.nodes[a.i]; var n' := n.(rx := n.rx + 1, delivered := n.delivered + 1,
                                               records := s'.nodes[a.i].records);
      && Outcome(s, s', a.i, n', [Arrived(a.i, b)]) && s'.air == s.air
      && forall r :: r in n'.records <==> r in n.records && r.id != b.id
  {
    hide Parse, Reaching, Released, TableOk, Load, Carriable, Accounted;
    NodeAt(s, a.i);
    ReleaseKeepsTable(s.nodes[a.i].records, b.id);
  }

  /** A node takes custody of live bundles that fit, of which it has no record, unless its policy
      rejects custody. */
  ghost predicate Takes(w: World, n: Node, t: real, b: Bundle) {
    && t < w.val(b.tGen) + w.val(b.ttl) && Load(n.queue) as real + b.size as real <= n.cap
    && !(|n.policy| >= 3 && n.policy[..3] == "rej") && forall r :: r in n.records ==> r.id != b.id
  }

  lemma TakesIffAcceptable(w: World, n: Node, t: real, b: Bundle)
    requires forall r :: r in n.records ==> r.custodian == n.self
    ensures Takes(w, n, t, b) <==> Acceptable(n.records, b, n.self, t, Free(n.queue, n.cap), n.policy, w.val)
  {
    hide Load;
    RejectingPrefix(n.policy);
    if Takes(w, n, t, b) {
      assert forall i :: 0 <= i < |n.records| ==> n.records[i] in n.records;
    } else if !Holds(n.records, b.id, n.self) {
      forall r | r in n.records ensures r.id != b.id {
        var i :| 0 <= i < |n.records| && n.records[i] == r;
      }
    }
  }

  lemma RejectingPrefix(policy: string)
    ensures Rejecting(policy) <==> |policy| >= 3 && policy[..3] == "rej"
  {
  }

  /** The bundle as it is queued here: located at this node, which is its custodian if the custody
      table had room to record that. */
  function Held(n: Node, b: Bundle): Bundle { b.(curr := n.self, cust := if |n.records| < 32 then n.self else b.cust) }

  lemma UnknownAppended(s: seq<Record>, id: BundleId, node: NodeId, t: real, period: real)
    requires forall r :: r in s ==> r.id != id
    ensures Transferred(s, id, node, t, period) == if |s| < 32 then s + [Record(id, node, t, t + period)] else s
    ensures Recordable(s, id) <==> |s| < 32
  {
    assert forall i :: 0 <= i < |s| ==> s[i] in s;
  }

  lemma RoomAdmits(s: seq<Bundle>, cap: real, b: Bundle)
    requires Load(s) as real + b.size as real <= cap
    ensures Admit(s, cap, b) == if |s| < 16 then Admission(s + [b], 0) else Admission(s, -1)
  {
    hide Load;
  }

  /** Any other bundle is taken exactly on those terms: recorded for 1800 s while the table has
      fewer than 32 records, queued while the queue has fewer than 16 bundles. */
  lemma CustodyOnTheseTerms(w: World, s: Net, s': Net, a: Action, b: Bundle)
    requires NodesOk(s) && Step(w, s, s', a) && a.Hear? && Parse(a.f) == Accepted(b) && b.dst != s.nodes[a.i].self
    ensures var n := s.nodes[a.i];
      if Takes(w, n, a.t, b) then
        var queued, recorded := |n.queue| < 16, |n.records| < 32;
        Outcome(s, s', a.i,
                n.(rx := n.rx + 1, queue := if queued then n.queue + [Held(n, b)] else n.queue,
                   records := if recorded then n.records + [Record(b.id, n.self, a.t, a.t + 1800.0)] else n.records),
                [Taken(a.i, Held(n, b), a.t, queued)])
      else Outcome(s, s', a.i, n.(rx := n.rx + 1), [])
    ensures s'.air == s.air
  {
    hide Parse, Reaching, Released, TableOk, Load, Carriable, Accounted, Acceptable, Takes, Admit, Transferred,
      Recordable;
    var n := s.nodes[a.i];
    NodeAt(s, a.i);
    TakesIffAcceptable(w, n, a.t, b);
    if Takes(w, n, a.t, b) {
      TakesFits(w, n, a.t, b);
      UnknownAppended(n.records, b.id, n.self, a.t, n.period);
      RoomAdmits(n.queue, n.cap, Held(n, b));
    }
  }

  lemma TakesFits(w: World, n: Node, t: real, b: Bundle)
    requires Takes(w, n, t, b)
    ensures Load(n.queue) as real + b.size as real <= n.cap && forall r :: r in n.records ==> r.id != b.id
  {
  }

  // ---- Ticking ----

  /** `b` was first in line: no queued bundle ranks higher, and no equal one expires earlier. */
  ghost predicate FirstInLine(w: World, n: Node, t: real, b: Bundle) {
    b in n.queue && forall c :: c in n.queue ==>
      Rank(b, t, w.val) >= Rank(c, t, w.val) && (Equals(b, c) ==> NoLater(b, c, t, w.val))
  }

  /** `n` and `n'` agree but for queue, records, plan and the count of transmissions. */
  predicate SameBut(n: Node, n': Node) {
    n' == n.(queue := n'.queue, records := n'.records, plan := n'.plan, tx := n'.tx)
  }

  lemma ServedFirst(w: World, n: Node, t: real, n': Node, ev: Ticked)
    requires TickStep(n, t, n', ev, w)
    ensures ev.Idle? <==> n.queue == []
    ensures !ev.Idle? ==> FirstInLine(w, n, t, ev.b)
    ensures SameBut(n, n')
  {
    hide Rank, Best, SwapRemove, Equals, NoLater, IsAlive, FirstHop, GoesBack, Swept, Released, Consume, IsFeasibleFor,
      Codec.Frame, Admit;
    if n.queue != [] {
      BestIsHighest(n.queue, t, w.val);
      ServedByDeadline(n.queue, t, w.val);
    }
  }

  /** A tick drops the records whose time is up, and that of a bundle found expired; it keeps all
      others, that of a bundle just sent included. */
  lemma RecordsAfterTick(w: World, n: Node, t: real, n': Node, ev: Ticked)
    requires NodeOk(n) && TickStep(n, t, n', ev, w)
    ensures forall r :: r in n'.records <==> r in n.records && t < r.timeout && !(ev.Lapsed? && r.id == ev.b.id)
  {
    hide Parse, Admit, Released, Swept, Load, IsAlive, FirstHop, GoesBack, Head, Behead, Codec.Frame, Consume,
      IsFeasibleFor, TableOk;
    SweepMembers(n.records, t);
    SweepExact(n.records, t);
    if ev.Lapsed? {
      ReleaseKeepsTable(Swept(n.records, t), ev.b.id);
    }
  }

  /** Contact `c` is open at `t` with room for `size` bytes. */
  predicate Open(c: Contact, size: nat, t: real) {
    c.status == Up && c.tStart <= t < c.tEnd && c.rate * (c.tEnd - t) - c.bytesUsed - c.reserved >= size as real
  }

  /** A bundle is found expired exactly when its deadline has passed; it is sent only alive, over
      an open contact of the node with room for it, in a frame that says just that bundle, and then
      only that contact is charged; otherwise it stays queued. */
  lemma TickOutcome(w: World, n: Node, t: real, n': Node, ev: Ticked)
    requires NodeOk(n) && TickStep(n, t, n', ev, w) && n.queue != []
    ensures ev.Lapsed? <==> w.val(ev.b.tGen) + w.val(ev.b.ttl) <= t
    ensures ev.Lapsed? || ev.Sent? ==> multiset(n.queue) == multiset(n'.queue) + multiset{ev.b}
    ensures ev.Kept? ==> multiset(n.queue) == multiset(n'.queue)
    ensures !ev.Sent? ==> n'.plan == n.plan && n'.tx == n.tx
    ensures ev.Sent? ==>
      && ev.contact < |n.plan| && n.plan[ev.contact].frm == n.self && Open(n.plan[ev.contact], ev.b.size, t)
      && Parse(ev.frame) == Accepted(ev.b.(run := RESET)) && |ev.frame| == ev.b.size && n'.tx == n.tx + 1
      && |n'.plan| == |n.plan|
      && forall j :: 0 <= j < |n.plan| ==>
           SameContact(n.plan[j], n'.plan[j])
           && n'.plan[j].bytesUsed == n.plan[j].bytesUsed + if j == ev.contact then |ev.frame| as real else 0.0
  {
    ServedFirst(w, n, t, n', ev);
    TickConserves(n, t, n', ev, w);
    AliveUntilDeadline(ev.b, t, w.val);
    if ev.Sent? {
      SendsOverOwn(n, t, n', ev, w);
    }
    SentOpen(w, n, t, n', ev);
    hide TickStep, NodeOk, Parse, IsAlive;
  }

  lemma SentOpen(w: World, n: Node, t: real, n': Node, ev: Ticked)
    requires TickStep(n, t, n', ev, w)
    ensures if ev.Sent? then
              && ev.contact < |n.plan| && Open(n.plan[ev.contact], ev.b.size, t) && n'.tx == n.tx + 1
              && n'.plan == n.plan[ev.contact := Consume(n.plan[ev.contact], ev.b.size as real)]
            else n'.plan == n.plan && n'.tx == n.tx
    ensures ev.Lapsed? ==> !IsAlive(ev.b, t, w.val)
    ensures ev.Kept? ==> IsAlive(ev.b, t, w.val)
  {
    hide Rank, Best, SwapRemove, IsAlive, FirstHop, GoesBack, Swept, Released, Codec.Frame, Admit, Consume;
  }

  /** What is sent leaves over the first leg of a timetable. */
  lemma SentOnTimetable(w: World, n: Node, t: real, n': Node, ev: Ticked)
    requires TickStep(n, t, n', ev, w) && Logarithm(w.ln) && ev.Sent?
    requires |CgrSearch.Others(RouteQuery(n, ev.b, t, w))| <= 8
    ensures exists legs: seq<Leg> :: Timetable(n.plan, ev.b, t, n.cfg, w.val, legs) && legs[0].contact == ev.contact
  {
    hide TickStep, Answered, Logarithm, Timetable, Regime, CgrSearch.Others, IsAlive, CgrWeights.Delivers,
      CgrWeights.LeastOutlay, CgrWeights.Earliest, CgrWeights.Surest;
    var q := RouteQuery(n, ev.b, t, w);
    RoutedFrom(w, n, t, n', ev);
    var route: Route :| route.hops != [] && route.hops[0] == ev.contact && Choosable(q, route);
    AnsweredInTime(n.plan, ev.b, t, n.cfg, w.ln, w.val, CgrSearch.Found(route));
    FirstLeg(n.plan, ev.b, t, n.cfg, w.val, route);
  }

  /** In the regime of the search nothing is held back for want of a route while there is one. */
  lemma HeldOnlyWithoutTimetable(w: World, n: Node, t: real, n': Node, ev: Ticked)
    requires TickStep(n, t, n', ev, w) && Logarithm(w.ln) && ev.Kept? && ev.why.NoWay?
    requires Regime(RouteQuery(n, ev.b, t, w))
    ensures forall legs :: !Timetable(n.plan, ev.b, t, n.cfg, w.val, legs)
  {
    hide TickStep, Answered, Logarithm, Timetable, Regime, CgrSearch.Others;
    RoutedFrom(w, n, t, n', ev);
    AnsweredInTime(n.plan, ev.b, t, n.cfg, w.ln, w.val, CgrSearch.NoRoute);
  }

  lemma FirstLeg(cs: seq<Contact>, b: Bundle, t: real, cfg: Config, val: FloatReading, route: Route)
    requires CgrWeights.Delivers(cs, b, t, cfg, val, route) && route.hops != []
    ensures exists legs: seq<Leg> :: Timetable(cs, b, t, cfg, val, legs) && legs[0].contact == route.hops[0]
  {
    hide Journey;
    var legs: seq<Leg> :|
      Timetable(cs, b, t, cfg, val, legs) && HopsOf(legs) == route.hops && ArrivalOf(cs, t, legs) == route.arrival;
    assert HopsOf(legs)[0] == legs[0].contact;
  }

  lemma RoutedFrom(w: World, n: Node, t: real, n': Node, ev: Ticked)
    requires TickStep(n, t, n', ev, w)
    ensures ev.Sent? ==> FirstHop(n, ev.b, t, ev.contact, w)
    ensures ev.Kept? && ev.why.NoWay? ==> Unroutable(RouteQuery(n, ev.b, t, w))
  {
    hide Rank, Best, SwapRemove, IsAlive, Answered, Swept, Released, Codec.Frame, Admit, Consume, IsFeasibleFor;
  }

  // ---- Generating ----

  /** Generating uses up a count and adds exactly the bundle asked for where there is room. */
  lemma GeneratedOutcome(w: World, s: Net, s': Net, a: Action)
    requires Step(w, s, s', a) && a.Originate?
    ensures a.i < |s.nodes| && |s'.nodes| == |s.nodes| && s'.air == s.air
    ensures var n, n' := s.nodes[a.i], s'.nodes[a.i];
      var b := NewBundle(n, a.dst, a.cls, a.msg, a.stamp);
      && n' == n.(queue := n'.queue, counter := n.counter + 1) && s'.nodes == s.nodes[a.i := n']
      && AsAsked(b, n.self, a.dst, a.cls, a.msg, a.stamp) && b.id == MakeId(n.self, n.counter)
      && (|n.queue| < 16 && Load(n.queue) as real + b.size as real <= n.cap ==>
            n'.queue == n.queue + [b] && s'.log == s.log + [Made(a.i, n.counter, b)])
  {
    hide MakeId, Load, AsAsked, NewBundle, Evictions;
    var n := s.nodes[a.i];
    var b := NewBundle(n, a.dst, a.cls, a.msg, a.stamp);
    GeneratesAsAsked(n, a.dst, a.cls, a.msg, a.stamp);
    DisplacedBalance(n.queue, n.cap, b);
    if |n.queue| < 16 && Load(n.queue) as real + b.size as real <= n.cap {
      RoomAdmits(n.queue, n.cap, b);
      hide Admit, Displaced;
      assert Evictions(a.i, []) == [] by { NoEvictions(a.i); }
    }
  }

  lemma NoEvictions(i: nat)
    ensures Evictions(i, []) == []
  {
  }

  // ---- Over whole runs ----

  /** `b` is what action `m` of the run asked for, with the identifier minted for it. */
  ghost predicate AskedBy(ss: seq<Net>, acts: seq<Action>, m: nat, b: Bundle) {
    && m < |acts| && m < |ss| && acts[m].Originate? && acts[m].i < |ss[m].nodes|
    && var a, n := acts[m], ss[m].nodes[acts[m].i];
       b.id == MakeId(n.self, n.counter) && MatchesRequest(b, n.self, a)
  }

  /** Origin, destination, class, priority, times and message are those of request `a` at node `self`. */
  predicate MatchesRequest(b: Bundle, self: NodeId, a: Action)
    requires a.Originate?
  {
    && b.src == self && b.dst == a.dst && b.cls == a.cls && b.prio == a.cls
    && b.tGen == a.stamp && b.ttl == TTL_ONE_HOUR
    && b.payload == if |a.msg| <= 160 then a.msg else a.msg[..160]
  }

  lemma AddedOnRequest(w: World, s: Net, s': Net, a: Action, e: Entry)
    requires Step(w, s, s', a) && s.log <= s'.log && e in s'.log && e !in s.log && e.Made?
    ensures a.Originate? && a.i < |s.nodes|
    ensures e.b.id == MakeId(s.nodes[a.i].self, s.nodes[a.i].counter) && MatchesRequest(e.b, s.nodes[a.i].self, a)
  {
    hide Step, MakeId, NewBundle;
    var j :| |s.log| <= j < |s'.log| && s'.log[j] == e;
    AddedGeneration(w, s, s', a, j);
    GeneratesAsAsked(s.nodes[a.i], a.dst, a.cls, a.msg, a.stamp);
  }

  /** Every generation in the log was asked for by an earlier action. */
  lemma {:induction false} MadeOnRequest(w: World, ss: seq<Net>, acts: seq<Action>, k: nat, e: Entry)
    requires Run(w, ss, acts) && k < |ss| && e in ss[k].log && e.Made?
    ensures exists m: nat :: m < k && AskedBy(ss, acts, m, e.b)
    decreases k
  {
    hide Step, MakeId, NodesOk, NodeOk, Conserved, Traced, Minted, MatchesRequest;
    assert ss[0].log == [];
    var s, a := ss[k - 1], acts[k - 1];
    if e in s.log {
      MadeOnRequest(w, ss, acts, k - 1, e);
    } else {
      assert Step(w, s, ss[k - 1 + 1], a);
      RunKeeps(w, ss, acts, k - 1);
      StepNode(w, s, ss[k], a);
      AddedOnRequest(w, s, ss[k], a, e);
      assert AskedBy(ss, acts, k - 1, e.b);
    }
  }

  /** A step delivers only at the bundle's destination. */
  lemma AddedArrival(w: World, s: Net, s': Net, a: Action, e: Entry)
    requires Step(w, s, s', a) && |s.log| <= |s'.log| && e in Added(s, s') && e.Arrived?
    ensures e.at == a.i < |s.nodes| && e.b.dst == s.nodes[a.i].self
  {
    hide Receive, Admit, TickStep, NewBundle, Generate, Displaced, Reaching;
    if a.Hear? {
      UserIsDestination(s.nodes[a.i], a.t, a.f, w);
    }
  }

  lemma UserIsDestination(n: Node, t: real, f: seq<bv8>, w: World)
    ensures var r := Receive(n, t, f, w).1; r.ToUser? ==> r.b.dst == n.self
  {
    hide Parse, Admit, Acceptable, Released, Transferred, TakenOver, Free;
  }

  ghost predicate ArrivedHome(s0: Net, e: Entry) { e.Arrived? ==> e.at < |s0.nodes| && e.b.dst == s0.nodes[e.at].self }

  lemma {:induction false} RunArrivals(w: World, ss: seq<Net>, acts: seq<Action>, k: nat)
    requires Run(w, ss, acts) && k < |ss|
    ensures |ss[k].nodes| == |ss[0].nodes|
    ensures forall i :: 0 <= i < |ss[0].nodes| ==> ss[k].nodes[i].self == ss[0].nodes[i].self
    ensures forall e :: e in ss[k].log ==> ArrivedHome(ss[0], e)
  {
    hide Step, NodesOk, Conserved, Traced, Minted, ArrivedHome;
    if k == 0 {
      NoArrivals(ss[0]);
    } else {
      RunArrivals(w, ss, acts, k - 1);
      RunKeeps(w, ss, acts, k - 1);
      assert Step(w, ss[k - 1], ss[k - 1 + 1], acts[k - 1]);
      StepArrivals(w, ss[0], ss[k - 1], ss[k], acts[k - 1]);
    }
  }

  lemma NoArrivals(s: Net)
    requires s.log == []
    ensures forall e :: e in s.log ==> ArrivedHome(s, e)
  {
  }

  lemma StepArrivals(w: World, s0: Net, s: Net, s': Net, a: Action)
    requires NodesOk(s) && Step(w, s, s', a) && |s.nodes| == |s0.nodes|
    requires forall i :: 0 <= i < |s.nodes| ==> s.nodes[i].self == s0.nodes[i].self
    requires forall e :: e in s.log ==> ArrivedHome(s0, e)
    ensures |s'.nodes| == |s0.nodes|
    ensures forall i :: 0 <= i < |s'.nodes| ==> s'.nodes[i].self == s0.nodes[i].self
    ensures forall e :: e in s'.log ==> ArrivedHome(s0, e)
  {
    hide Step, NodesOk, NodeOk, EnteredAt, LeftAt;
    StepNode(w, s, s', a);
    StepBalance(w, s, s', a);
    forall e | e in s'.log ensures ArrivedHome(s0, e) {
      if e !in s.log && e.Arrived? {
        assert e in Added(s, s');
        AddedArrival(w, s, s', a, e);
      }
    }
  }

  /** End to end, over every run: whatever is delivered was asked for by an earlier request, at the
      node it names as its source, for the node that delivers it, with just that message, class,
      priority and time. */
  lemma DeliveredAsSent(w: World, ss: seq<Net>, acts: seq<Action>, k: nat, e: Entry)
    requires Run(w, ss, acts) && k < |ss| && e in ss[k].log && e.Arrived?
    ensures e.at < |ss[0].nodes| && e.b.dst == ss[0].nodes[e.at].self
    ensures exists m: nat :: m < k && AskedBy(ss, acts, m, e.b)
  {
    hide Run, MakeId, NodesOk, Conserved, Minted, MatchesRequest;
    RunArrivals(w, ss, acts, k);
    RunKeeps(w, ss, acts, k);
    LoggedKnown(ss[k], e);
    var log := ss[k].log;
    var j :| 0 <= j < |log| && MadeAs(log[j], e.b);
    MadeOnRequest(w, ss, acts, k, log[j]);
    var m: nat :| m < k && AskedBy(ss, acts, m, log[j].b);
    SameRequest(log[j].b, e.b, ss[m].nodes[acts[m].i].self, acts[m]);
    assert AskedBy(ss, acts, m, e.b);
  }

  lemma SameRequest(b: Bundle, c: Bundle, self: NodeId, a: Action)
    requires a.Originate? && MatchesRequest(b, self, a) && SameOrigin(b, c)
    ensures MatchesRequest(c, self, a)
  {
  }

  // ---- Counters ----

  predicate ArrivesAt(e: Entry, i: nat) { e.Arrived? && e.at == i }

  predicate RelayedBy(e: Entry, i: nat) { e.Relayed? && e.at == i }

  function Arrivals(log: seq<Entry>, i: nat): nat { Count(log, e => ArrivesAt(e, i)) }

  function Relays(log: seq<Entry>, i: nat): nat { Count(log, e => RelayedBy(e, i)) }

  lemma {:induction false} CountConcatenation(log: seq<Entry>, more: seq<Entry>, p: Entry -> bool)
    ensures Count(log + more, p) == Count(log, p) + Count(more, p)
  {
    if more == [] {
      assert log + more == log;
    } else {
      assert (log + more)[..|log + more| - 1] == log + more[..|more| - 1];
      CountConcatenation(log, more[..|more| - 1], p);
    }
  }

  lemma {:induction false} NoneCounts(more: seq<Entry>, p: Entry -> bool)
    requires forall e :: e in more ==> !p(e)
    ensures Count(more, p) == 0
  {
    if more == [] {
    } else {
      assert more[|more| - 1] in more;
      NoneCounts(more[..|more| - 1], p);
    }
  }

  lemma OneCounts(e: Entry, p: Entry -> bool)
    ensures Count([e], p) == if p(e) then 1 else 0
  {
    assert [e][..0] == [];
  }

  /** The statistics a step changes are those of what it logs. */
  lemma StepCounters(w: World, s: Net, s': Net, a: Action)
    requires NodesOk(s) && Step(w, s, s', a) && a.i < |s.nodes| && |s'.nodes| == |s.nodes| && |s.log| <= |s'.log|
    ensures var n, n', more := s.nodes[a.i], s'.nodes[a.i], Added(s, s');
      n'.delivered == n.delivered + Arrivals(more, a.i) && n'.tx == n.tx + Relays(more, a.i)
  {
    hide NodesOk, Parse, Reaching, Admit, Acceptable, Count, NewBundle, Displaced, Released, Transferred, TakenOver,
      NextCount, TickStep, Evictions;
    var n, more := s.nodes[a.i], Added(s, s');
    var arrives, relays := e => ArrivesAt(e, a.i), e => RelayedBy(e, a.i);
    if a.Originate? {
      assert more == OriginateLog(n, a.i, NewBundle(n, a.dst, a.cls, a.msg, a.stamp));
      OriginateCounts(n, a.i, NewBundle(n, a.dst, a.cls, a.msg, a.stamp), arrives);
      OriginateCounts(n, a.i, NewBundle(n, a.dst, a.cls, a.msg, a.stamp), relays);
    } else if a.Hear? {
      var r := Receive(n, a.t, a.f, w);
      assert more == HearLog(a.i, a.t, r.1);
      if r.1.ToUser? {
        OneCounts(Arrived(a.i, r.1.b), arrives);
        NoneCounts(more, relays);
      } else {
        NoneCounts(more, arrives);
        NoneCounts(more, relays);
      }
    } else {
      assert more == TurnLog(a.i, a.ev);
      SentOpen(w, n, a.t, a.n, a.ev);
      ServedFirst(w, n, a.t, a.n, a.ev);
      NoneCounts(more, arrives);
      if a.ev.Sent? {
        OneCounts(more[0], relays);
      } else {
        NoneCounts(more, relays);
      }
    }
  }

  lemma OriginateCounts(n: Node, i: nat, b: Bundle, p: Entry -> bool)
    requires forall e: Entry :: p(e) ==> e.Arrived? || e.Relayed?
    ensures Count(OriginateLog(n, i, b), p) == 0
  {
    hide Admit, Displaced;
    NoneCounts(OriginateLog(n, i, b), p);
  }

  lemma TalliesConcat(log: seq<Entry>, more: seq<Entry>, i: nat)
    ensures Arrivals(log + more, i) == Arrivals(log, i) + Arrivals(more, i)
    ensures Relays(log + more, i) == Relays(log, i) + Relays(more, i)
  {
    CountConcatenation(log, more, e => ArrivesAt(e, i));
    CountConcatenation(log, more, e => RelayedBy(e, i));
  }

  lemma TalliesElsewhere(more: seq<Entry>, i: nat, k: nat)
    requires i != k && forall e :: e in more ==> e.at == i
    ensures Arrivals(more, k) == 0 && Relays(more, k) == 0
  {
    NoneCounts(more, e => ArrivesAt(e, k));
    NoneCounts(more, e => RelayedBy(e, k));
  }

  ghost predicate Counted(s0: Net, s: Net, i: nat) {
    && i < |s.nodes| && i < |s0.nodes|
    && s.nodes[i].delivered == s0.nodes[i].delivered + Arrivals(s.log, i)
    && s.nodes[i].tx == s0.nodes[i].tx + Relays(s.log, i)
  }

  lemma StepCounted(w: World, s0: Net, s: Net, s': Net, a: Action, i: nat)
    requires NodesOk(s) && Step(w, s, s', a) && Counted(s0, s, i)
    ensures Counted(s0, s', i)
  {
    hide Step, NodesOk, NodeOk, Arrivals, Relays, EnteredAt, LeftAt;
    StepNode(w, s, s', a);
    StepBalance(w, s, s', a);
    TalliesConcat(s.log, Added(s, s'), i);
    if i == a.i {
      StepCounters(w, s, s', a);
    } else {
      AddedHere(w, s, s', a);
      TalliesElsewhere(Added(s, s'), a.i, i);
    }
  }

  /** Over every run a node counts as delivered and as transmitted exactly what the log says. */
  lemma {:induction false} RunCounters(w: World, ss: seq<Net>, acts: seq<Action>, k: nat, i: nat)
    requires Run(w, ss, acts) && k < |ss| && i < |ss[0].nodes|
    ensures i < |ss[k].nodes|
    ensures ss[k].nodes[i].delivered == ss[0].nodes[i].delivered + Arrivals(ss[k].log, i)
    ensures ss[k].nodes[i].tx == ss[0].nodes[i].tx + Relays(ss[k].log, i)
  {
    hide Step, NodesOk, Conserved, Traced, Minted;
    if k == 0 {
      assert ss[0].log == [];
    } else {
      hide Arrivals, Relays;
      RunCounters(w, ss, acts, k - 1, i);
      RunKeeps(w, ss, acts, k - 1);
      assert Step(w, ss[k - 1], ss[k - 1 + 1], acts[k - 1]);
      StepCounted(w, ss[0], ss[k - 1], ss[k], acts[k - 1], i);
    }
  }

  // ---- Custodians ----

  /** Every queued bundle names the node that queues it as its custodian. */
  ghost predicate Custodial(s: Net) {
    forall i, b :: 0 <= i < |s.nodes| && b in s.nodes[i].queue ==> b.cust == s.nodes[i].self
  }

  lemma EnteredCustodial(w: World, s: Net, s': Net, a: Action, b: Bundle)
    requires NodesOk(s) && Step(w, s, s', a) && RoomyStep(w, s, a) && a.i < |s.nodes| && |s.log| <= |s'.log|
    requires b in EnteredAt(Added(s, s'), a.i)
    ensures b.cust == s.nodes[a.i].self
  {
    hide NodesOk, Parse, Reaching, Admit, Acceptable, Displaced, Released, Transferred, Recordable, TickStep, MakeId,
      EnteredAt, LeftAt;
    var n, more := s.nodes[a.i], Added(s, s');
    if a.Originate? {
      var made := NewBundle(n, a.dst, a.cls, a.msg, a.stamp);
      var bs := Displaced(n.queue, n.cap, made);
      OneEntry(Made(a.i, n.counter, made), a.i);
      EvictionsLeave(a.i, bs);
      LogConcat(Evictions(a.i, bs), [Made(a.i, n.counter, made)], a.i);
      assert Evictions(a.i, bs) + [] == Evictions(a.i, bs);
    } else if a.Hear? {
      var r := Receive(n, a.t, a.f, w).1;
      if r.InCustody? {
        OneEntry(Taken(a.i, r.b, a.t, r.code >= 0), a.i);
      } else if r.ToUser? {
        OneEntry(Arrived(a.i, r.b), a.i);
      } else {
        NoEntry(a.i);
      }
    } else {
      assert more == TurnLog(a.i, a.ev);
      if a.ev.Lapsed? || a.ev.Sent? {
        OneEntry(more[0], a.i);
      } else {
        NoEntry(a.i);
      }
    }
  }

  lemma StepCustodial(w: World, s: Net, s': Net, a: Action)
    requires NodesOk(s) && Custodial(s) && Step(w, s, s', a) && RoomyStep(w, s, a)
    ensures Custodial(s')
  {
    hide Step, NodeOk, RoomyStep, EnteredAt, LeftAt;
    StepNode(w, s, s', a);
    StepBalance(w, s, s', a);
    forall i, b | 0 <= i < |s'.nodes| && b in s'.nodes[i].queue ensures b.cust == s'.nodes[i].self {
      if i == a.i {
        QueueOrigin(s.nodes[i].queue, s'.nodes[i].queue, LeftAt(Added(s, s'), i), EnteredAt(Added(s, s'), i), b);
        if b !in s.nodes[i].queue {
          EnteredCustodial(w, s, s', a, b);
        }
      }
    }
  }

  /** Over every run whose custody tables have room, a queued bundle names its node as custodian. */
  lemma {:induction false} RunCustodial(w: World, ss: seq<Net>, acts: seq<Action>, k: nat)
    requires Run(w, ss, acts) && TablesRoomy(w, ss, acts) && k < |ss|
    ensures Custodial(ss[k])
  {
    hide Step, NodesOk, Conserved, Traced, Minted, RoomyStep, Custodial;
    if k == 0 {
      StartCustodial(ss[0]);
    } else {
      RunCustodial(w, ss, acts, k - 1);
      RunKeeps(w, ss, acts, k - 1);
      assert Step(w, ss[k - 1], ss[k - 1 + 1], acts[k - 1]) && RoomyStep(w, ss[k - 1], acts[k - 1]);
      StepCustodial(w, ss[k - 1], ss[k], acts[k - 1]);
    }
  }

  lemma StartCustodial(s: Net)
    requires Start(s)
    ensures Custodial(s)
  {
    forall i | 0 <= i < |s.nodes| ensures s.nodes[i].queue == [] {
      assert FreshNode(s.nodes[i]);
    }
  }
}
