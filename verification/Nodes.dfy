/** The forwarding engine of one node, stepping its queue, custody table and contact plan. */
module Nodes {
  import opened Bundles
  import opened Contacts
  import opened CgrModel
  import CgrSearch
  import opened CgrSelect
  import opened CgrTheorems
  import opened Codec
  import opened Queues
  import opened Custodies
  import opened NodeModel

  class NodeState {
    const selfId: NodeId
    const plan: ContactPlan
    const queue: NodeQueue
    const custody: CustodyManager
    const cfg: Config
    const world: World
    var counter: bv64
    var bundlesTx: nat
    var bundlesRx: nat
    var bundlesDelivered: nat

    ghost predicate Valid()
      reads this, plan, queue, custody
    {
      plan.Valid() && queue.Valid() && custody.Valid() && cfg.maxRoutes >= 1
    }

    /** The node's state as a value. */
    ghost function State(): (n: Node)
      reads this, plan, plan.contacts, queue, queue.slots, custody, custody.records
      requires Valid()
    {
      Node(selfId, plan.Contents(), cfg, queue.Contents(), queue.bufCap, queue.policy,
           custody.Contents(), custody.defaultTimeout, counter, bundlesTx, bundlesRx, bundlesDelivered)
    }

    /** A fresh node: empty queue, empty custody table with the default timeout, an empty plan. */
    constructor (self: NodeId, bufCap: real, policy: string, world: World, blank: Bundle)
      ensures Valid() && fresh(plan) && fresh(queue) && fresh(custody)
      ensures fresh(plan.contacts) && fresh(queue.slots) && fresh(custody.records)
      ensures selfId == self && this.world == world
      ensures State().queue == [] && State().records == [] && State().plan == []
      ensures State().cap == bufCap && State().period == TIMEOUT_DEFAULT && counter == 1
      ensures cfg == Config(10, 16, 1.0, 0.5, 0.3, true)
    {
      selfId, this.world := self, world;
      plan := new ContactPlan();
      queue := new NodeQueue(self, bufCap, policy, blank);
      custody := new CustodyManager(TIMEOUT_DEFAULT);
      cfg := Config(10, 16, 1.0, 0.5, 0.3, true);
      counter, bundlesTx, bundlesRx, bundlesDelivered := 1, 0, 0, 0;
    }

    /** Originate a bundle and queue it; 0 when the queue refuses it. */
    method GenerateBundle(dst: NodeId, cls: U8, msg: seq<bv8>, now: bv32) returns (id: BundleId)
      requires Valid()
      modifies this`counter, queue`count, queue.slots
      ensures Valid() && queue.slots == old(queue.slots)
      ensures State() == Generate(old(State()), dst, cls, msg, now).0
      ensures id == if Generate(old(State()), dst, cls, msg, now).1 < 0 then 0
                    else MakeId(selfId, old(counter))
      // Where there is room, the queue ends with the bundle asked for.
      ensures var n, n', text := old(State()), State(), if |msg| <= 160 then msg else msg[..160];
        |n.queue| < 16 && Load(n.queue) as real + 45.0 + |text| as real <= n.cap ==>
          && |n'.queue| == |n.queue| + 1 && n'.queue[..|n.queue|] == n.queue
          && AsAsked(n'.queue[|n.queue|], selfId, dst, cls, msg, now) && n'.queue[|n.queue|].id == id
    {
      hide Admit, NewBundle, MakeId, Clip, NextCount, AsAsked, Load;
      ghost var n := State();
      GeneratesAsAsked(n, dst, cls, msg, now);
      var b := BuildBundle(dst, cls, msg, now);
      counter := NextCount(counter);
      var code := queue.Enqueue(b);
      assert State() == n.(queue := queue.Contents(), counter := NextCount(n.counter));
      assert Admission(queue.Contents(), code) == Admit(n.queue, n.cap, b);
      id := if code < 0 then 0 else b.id;
    }

    /** Fill in a new bundle's fields, clipping the message to the payload limit. */
    method BuildBundle(dst: NodeId, cls: U8, msg: seq<bv8>, now: bv32) returns (b: Bundle)
      requires Valid()
      ensures b == NewBundle(State(), dst, cls, msg, now) && b.id == MakeId(selfId, counter)
    {
      hide MakeId;
      var mlen := |msg|;
      if mlen > MAX_PAYLOAD { mlen := MAX_PAYLOAD; }
      b := Bundle(MakeId(selfId, counter), selfId, dst, selfId, selfId, WIRE_HEADER + mlen + CRC_LEN,
                  cls, cls, now, TTL_ONE_HOUR, msg[..mlen], RESET.(status := Generated));
      assert msg[..mlen] == Clip(msg);
    }

    /** Handle a frame from the radio: deliver it, take custody of it, or drop it. */
    method HandleReceivedFrame(t: real, f: seq<bv8>) returns (code: int)
      requires Valid()
      modifies this`bundlesRx, this`bundlesDelivered, queue`count, queue.slots, custody`count, custody.records
      ensures Valid() && queue.slots == old(queue.slots) && custody.records == old(custody.records)
      ensures State() == Receive(old(State()), t, f, world).0
      ensures code == -1 <==> Receive(old(State()), t, f, world).1 == BadFrame
      ensures code == -1 || code == 0
      // A bundle for this node is counted as delivered, and no custody of it is left.
      ensures Parse(f).Accepted? && Parse(f).bundle.dst == selfId ==> bundlesDelivered == old(bundlesDelivered) + 1
      ensures !(Parse(f).Accepted? && Parse(f).bundle.dst == selfId) ==> bundlesDelivered == old(bundlesDelivered)
      ensures Parse(f).Accepted? && Parse(f).bundle.dst == selfId && TableOk(old(custody.Contents())) ==>
        forall r :: r in custody.Contents() <==> r in old(custody.Contents()) && r.id != Parse(f).bundle.id
    {
      hide Parse, Admit, Transferred, Released, Acceptable, Load, TakenOver, TableOk;
      ghost var n := State();
      var r := Deserialize(f);
      if r == Rejected { return -1; }
      var b := r.bundle;
      bundlesRx := bundlesRx + 1;
      ghost var n1 := State();
      assert n1 == n.(rx := n.rx + 1);
      if b.dst == selfId {
        Deliver(b);
        return 0;
      }
      var free := queue.QueueFree();
      var ok := custody.CanAccept(b, selfId, t, free, queue.policy, world.val);
      if ok {
        TakeCustody(b, t);
        assert TakenOver(n1, b) == TakenOver(n, b) by { TakenOverSame(n1, n, b); }
      }
      return 0;
    }

    /** Count the bundle as delivered and drop the custody record of it. */
    method Deliver(b: Bundle)
      requires Valid()
      modifies this`bundlesDelivered, custody`count, custody.records
      ensures Valid() && custody.records == old(custody.records)
      ensures var n := old(State());
        State() == n.(delivered := n.delivered + 1, records := Released(n.records, b.id))
      ensures TableOk(old(custody.Contents())) ==>
        forall r :: r in custody.Contents() <==> r in old(custody.Contents()) && r.id != b.id
    {
      hide Released, TableOk;
      ghost var n := State();
      bundlesDelivered := bundlesDelivered + 1;
      custody.Release(b.id);
      assert State() == n.(delivered := n.delivered + 1, records := Released(n.records, b.id));
      if TableOk(n.records) {
        ReleaseKeepsTable(n.records, b.id);
      }
    }

    /** Record custody of the bundle and queue it. */
    method TakeCustody(b: Bundle, t: real)
      requires Valid()
      modifies queue`count, queue.slots, custody`count, custody.records
      ensures Valid() && queue.slots == old(queue.slots) && custody.records == old(custody.records)
      ensures var n := old(State());
        State() == n.(records := Transferred(n.records, b.id, selfId, t, n.period),
                      queue := Admit(n.queue, n.cap, TakenOver(n, b)).queue)
    {
      hide Admit, Transferred, Recordable;
      ghost var n := State();
      var mine := custody.Transfer(b.(curr := selfId), t);
      assert mine == TakenOver(n, b);
      var admitted := queue.Enqueue(mine);
      assert State() == n.(records := custody.Contents(), queue := queue.Contents());
    }

    /** Put a popped bundle back. */
    method Requeue(b: Bundle)
      requires Valid()
      modifies queue`count, queue.slots
      ensures Valid() && queue.slots == old(queue.slots)
      ensures State() == old(State()).(queue := Admit(old(State()).queue, queue.bufCap, b).queue)
    {
      hide Admit;
      ghost var n := State();
      var code := queue.Enqueue(b);
      assert State() == n.(queue := queue.Contents());
    }

    /** Transmit `b` over contact `first` if it is open and has room, the frame fits and the radio
        takes it (`radioOk`); otherwise put it back. */
    method Transmit(b: Bundle, first: nat, t: real, radioOk: bool) returns (sent: bool)
      requires Valid() && first < plan.count
      modifies this`bundlesTx, plan.contacts, queue`count, queue.slots
      ensures Valid() && queue.slots == old(queue.slots)
      ensures sent <==> radioOk && IsFeasibleFor(old(State()).plan[first], b.size as real, t) && Encodable(b)
      ensures var n := old(State());
        State() == if sent then n.(plan := n.plan[first := Consume(n.plan[first], b.size as real)], tx := n.tx + 1)
                   else n.(queue := Admit(n.queue, n.cap, b).queue)
    {
      hide Admit, IsFeasibleFor, Consume, Codec.Frame;
      ghost var n := State();
      if !IsFeasibleFor(plan.contacts[first], b.size as real, t) {
        Requeue(b);
        return false;
      }
      var buffer := new bv8[FRAME_BUFFER](_ => 0);
      var len := Serialize(b, buffer, FRAME_BUFFER);
      if len < 0 || !radioOk {
        Requeue(b);
        return false;
      }
      plan.ConsumeOn(first, b.size as real);
      bundlesTx := bundlesTx + 1;
      assert State() == n.(plan := plan.Contents(), tx := n.tx + 1);
      return true;
    }

    /** Serve the highest-ranked bundle: drop it if expired, otherwise route it and transmit it
        over the first hop, putting it back when there is no route, the hop is not open, the frame
        does not fit or the radio fails. A search that leaves its bounded tables gives no event:
        `done` is then false. */
    method TrySendOne(t: real, radioOk: bool) returns (done: bool, ghost ev: Ticked)
      requires Valid() && NodeOk(State())
      modifies this`bundlesTx, plan.contacts, queue`count, queue.slots, custody`count, custody.records
      ensures Valid() && queue.slots == old(queue.slots) && custody.records == old(custody.records)
      ensures done ==> Attempt(old(State()), t, State(), ev, world)
      ensures !done ==> var n := old(State()); n.queue != [] && !Answerable(RouteQuery(n, Head(n, t, world), t, world))
      ensures radioOk ==> !(ev.Kept? && ev.why.RadioFailed?)
      ensures !radioOk ==> !ev.Sent?
    {
      hide Admit, NodeOk, Best, SwapRemove, GoesBack, FirstHop, IsAlive, Codec.Frame, Released, Consume, IsFeasibleFor,
        Answerable;
      ghost var n := State();
      var found, b := queue.PopNext(t, world.val);
      if !found {
        assert State() == n;
        return true, Idle;
      }
      ghost var popped := State();
      assert b == Head(n, t, world) && popped == n.(queue := Behead(n, t, world));
      if !IsAlive(b, t, world.val) {
        custody.Release(b.id);
        assert State() == popped.(records := custody.Contents());
        return true, Lapsed(b);
      }
      hide Head, Behead;
      done, ev := RouteAndSend(b, t, radioOk);
      SameQuery(n, popped, b, t, ev, world);
    }

    /** Route a popped bundle and transmit it, or put it back. */
    method RouteAndSend(b: Bundle, t: real, radioOk: bool) returns (done: bool, ghost ev: Ticked)
      requires Valid()
      modifies this`bundlesTx, plan.contacts, queue`count, queue.slots
      ensures Valid() && queue.slots == old(queue.slots)
      ensures !done ==> !Answerable(RouteQuery(old(State()), b, t, world)) && ev.Idle?
      ensures done ==> Dispatched(old(State()), b, t, State(), ev, world)
      ensures radioOk ==> !(ev.Kept? && ev.why.RadioFailed?)
      ensures !radioOk ==> !ev.Sent?
    {
      hide Admit, FirstHop, Codec.Frame, Consume, IsFeasibleFor, Answered, Answerable;
      ghost var n := State();
      var res := RouteFor(b, t);
      if res.Stopped? { return false, Idle; }
      if res.NoRoute? {
        Requeue(b);
        return true, Kept(b, NoWay);
      }
      FoundFirstHop(n, b, t, res.route, world);
      var j := res.route.hops[0];
      var sent := Transmit(b, j, t, radioOk);
      ev := if !IsFeasibleFor(n.plan[j], b.size as real, t) then Kept(b, NotOpen(j))
            else if !Encodable(b) then Kept(b, TooLong)
            else if sent then Sent(b, j, Codec.Frame(b))
            else Kept(b, RadioFailed(j));
      return true, ev;
    }

    /** Ask the route search, on the node's own plan and configuration. */
    method RouteFor(b: Bundle, t: real) returns (res: CgrSearch.SearchResult)
      requires Valid()
      ensures Answered(RouteQuery(State(), b, t, world), res)
      ensures Answerable(RouteQuery(State(), b, t, world)) ==> !res.Stopped?
    {
      hide Answered, Answerable, RecordsWalk, CheapestRoute, FeasibleRoute, MarginFree, Weighed, Fits;
      res := SelectRoute(plan, b, t, cfg, world.ln, world.val);
    }

    /** The per-iteration step: sweep custody timeouts, then try to send one bundle. */
    method Tick(t: real, radioOk: bool) returns (done: bool, ghost ev: Ticked)
      requires Valid() && NodeOk(State())
      modifies this`bundlesTx, plan.contacts, queue`count, queue.slots, custody`count, custody.records
      ensures Valid() && queue.slots == old(queue.slots) && custody.records == old(custody.records)
      ensures done ==> TickStep(old(State()), t, State(), ev, world) && NodeOk(State())
      ensures !done ==> var n := old(State()); n.queue != [] && !Answerable(RouteQuery(n, Head(n, t, world), t, world))
      ensures radioOk ==> !(ev.Kept? && ev.why.RadioFailed?)
      ensures !radioOk ==> !ev.Sent?
    {
      hide Answerable, Attempt;
      ghost var n := State();
      custody.Sweep(t);
      SweepKeepsNode(n, t);
      done, ev := TrySendOne(t, radioOk);
      if done {
        TickKeeps(n, t, State(), ev, world);
      }
    }
  }

  lemma TakenOverSame(m: Node, n: Node, b: Bundle)
    requires m.self == n.self && m.records == n.records
    ensures TakenOver(m, b) == TakenOver(n, b)
  {
  }

  lemma FoundFirstHop(n: Node, b: Bundle, t: real, route: Route, w: World)
    requires Choosable(RouteQuery(n, b, t, w), route)
    ensures route.hops != [] && route.hops[0] < |n.plan| && FirstHop(n, b, t, route.hops[0], w)
  {
    hide Answered;
    ChosenHop(RouteQuery(n, b, t, w), route);
  }

  /** Routing asks about plan, bundle and time only, not about the queue. */
  lemma SameQuery(n: Node, popped: Node, b: Bundle, t: real, ev: Ticked, w: World)
    requires popped == n.(queue := popped.queue)
    ensures RouteQuery(n, b, t, w) == RouteQuery(popped, b, t, w)
    ensures forall j: nat :: FirstHop(n, b, t, j, w) <==> FirstHop(popped, b, t, j, w)
    ensures ev.Kept? ==> (GoesBack(n, b, t, ev.why, w) <==> GoesBack(popped, b, t, ev.why, w))
  {
    hide Choosable, Unroutable;
  }
}
