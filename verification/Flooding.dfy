/** How often one bundle can be on the air. A node that takes custody records it for 1800 s and
    takes it again only after that; bundles live 3600 s. So over every run each node takes one
    bundle at most twice, and its transmissions across the network are bounded. */
module Flooding {
  import opened Bundles
  import opened Codec
  import opened Queues
  import opened Custodies
  import opened NodeModel
  import opened Network
  import opened Provenance

  /** No custody is taken while the table has no room to record it. */
  ghost predicate TablesRoomy(w: World, ss: seq<Net>, acts: seq<Action>)
    requires |ss| == |acts| + 1
  {
    forall k :: 0 <= k < |acts| ==> RoomyStep(w, ss[k], acts[k])
  }

  ghost predicate RoomyStep(w: World, s: Net, a: Action) {
    a.Hear? && a.i < |s.nodes| ==>
      var r := Receive(s.nodes[a.i], a.t, a.f, w).1;
      r.InCustody? ==> Recordable(s.nodes[a.i].records, r.b.id)
  }

  // ---- A custody record outlives its 1800 s or its bundle ----

  /** Still blocking: the record of an acceptance at `t` is there, unless its time is over or
      the bundle has expired. */
  ghost predicate Guarded(w: World, n: Node, now: real, b: Bundle, t: real) {
    now >= t + TIMEOUT_DEFAULT || now >= TExp(b, w.val) || Record(b.id, n.self, t, t + TIMEOUT_DEFAULT) in n.records
  }

  ghost predicate TakenOk(w: World, n: Node, now: real, e: Entry) {
    e.Taken? ==>
      && e.b.dst != n.self && w.val(e.b.tGen) <= e.t < TExp(e.b, w.val) && e.t <= now
      && Guarded(w, n, now, e.b, e.t)
  }

  /** Two acceptances of one bundle at one node are at least the custody timeout apart. */
  predicate Apart(d: Entry, e: Entry) {
    d.Taken? && e.Taken? && d.at == e.at && d.b.id == e.b.id ==> d.t + TIMEOUT_DEFAULT <= e.t
  }

  ghost predicate Spaced(w: World, s: Net) {
    && (forall k :: 0 <= k < |s.log| ==> s.log[k].at < |s.nodes| && TakenOk(w, s.nodes[s.log[k].at], s.now, s.log[k]))
    && (forall j, k :: 0 <= j < k < |s.log| ==> Apart(s.log[j], s.log[k]))
  }

  lemma SameIdSameOrigin(w: World, s: Net, b: Bundle, c: Bundle)
    requires NodesOk(s) && Minted(w, s) && Known(s.log, b) && Known(s.log, c) && b.id == c.id
    ensures SameOrigin(b, c)
  {
    hide NodesOk, Minted;
    var j :| 0 <= j < |s.log| && MadeAs(s.log[j], b);
    var k :| 0 <= k < |s.log| && MadeAs(s.log[k], c);
    UniqueIds(w, s, j, k);
  }

  /** The bundle whose record the step releases by hand. */
  ghost predicate Frees(w: World, n: Node, a: Action, b: Bundle) {
    match a
    case Originate(_, _, _, _, _) => false
    case Hear(_, t, f) => Receive(n, t, f, w).1 == ToUser(b)
    case Turn(_, t, n', ev) => ev == Lapsed(b)
  }

  lemma HearRecords(w: World, n: Node, t: real, f: seq<bv8>, r: Record)
    requires NodeOk(n) && r in n.records
    ensures var out := Receive(n, t, f, w);
      r in out.0.records || (out.1.ToUser? && out.1.b.id == r.id)
  {
    hide Parse, Admit, Released, Transferred, Free, Load, IsAlive, Rejecting;
    if Parse(f).Accepted? {
      var b := Parse(f).bundle;
      ReleaseKeepsTable(n.records, b.id);
      TransferKeepsTable(n.records, b.id, n.self, t, n.period);
      var k :| 0 <= k < |n.records| && n.records[k] == r;
      assert r.id == b.id ==> Holds(n.records, b.id, n.self);
    }
  }

  lemma TurnRecords(w: World, n: Node, t: real, n': Node, ev: Ticked, r: Record)
    requires NodeOk(n) && TickStep(n, t, n', ev, w) && r in n.records
    ensures r in n'.records || t >= r.timeout || (ev.Lapsed? && ev.b.id == r.id && !IsAlive(ev.b, t, w.val))
  {
    hide Parse, Admit, Released, Swept, Load, IsAlive, FirstHop, Head, Behead, Codec.Frame;
    SweepMembers(n.records, t);
    SweepExact(n.records, t);
    if ev.Lapsed? {
      ReleaseKeepsTable(Swept(n.records, t), ev.b.id);
    }
  }

  lemma RecordStays(w: World, s: Net, s': Net, a: Action, r: Record)
    requires NodesOk(s) && Step(w, s, s', a) && a.i < |s.nodes| && |s'.nodes| == |s.nodes| && r in s.nodes[a.i].records
    ensures
      || r in s'.nodes[a.i].records || s'.now >= r.timeout
      || exists b :: Frees(w, s.nodes[a.i], a, b) && b.id == r.id && (a.Turn? ==> !IsAlive(b, s'.now, w.val))
  {
    hide Parse, Admit, NodeOk, Receive, TickStep, NewBundle, Reaching, IsAlive;
    if a.Hear? {
      HearRecords(w, s.nodes[a.i], a.t, a.f, r);
      var out := Receive(s.nodes[a.i], a.t, a.f, w);
      assert out.1.ToUser? ==> Frees(w, s.nodes[a.i], a, out.1.b);
    } else if a.Turn? {
      TurnRecords(w, s.nodes[a.i], a.t, a.n, a.ev, r);
      assert a.ev.Lapsed? ==> Frees(w, s.nodes[a.i], a, a.ev.b);
    }
  }

  lemma HeardKnown(w: World, s: Net, f: seq<bv8>)
    requires Traced(s) && Reaching(s.air, f) && Parse(f).Accepted?
    ensures Known(s.log, Parse(f).bundle)
  {
    hide Parse, Reaching, Known, Traced;
    FramesParse(s);
    IntactOrRejected(s.air, f);
    AirKnown(s, f);
  }

  /** What frees a record of bundle `b` by hand only does so after `b` expired. */
  lemma FreedExpired(w: World, s: Net, s': Net, a: Action, b: Bundle, c: Bundle)
    requires NodesOk(s) && Traced(s) && Minted(w, s) && Step(w, s, s', a) && a.i < |s.nodes|
    requires Known(s.log, b) && b.dst != s.nodes[a.i].self
    requires Frees(w, s.nodes[a.i], a, c) && c.id == b.id && (a.Turn? ==> !IsAlive(c, s'.now, w.val))
    ensures s'.now >= TExp(b, w.val)
  {
    hide NodesOk, Minted, Parse, Acceptable, Admit, Released, Transferred, TakenOver, TickStep, Reaching, Known, Traced;
    if a.Hear? {
      HeardKnown(w, s, a.f);
    } else {
      ServedFromQueue(w, s.nodes[a.i], a.t, a.n, a.ev);
      QueueKnown(s, a.i, c);
    }
    SameIdSameOrigin(w, s, b, c);
  }

  /** An acceptance once guarded stays guarded. */
  lemma GuardStays(w: World, s: Net, s': Net, a: Action, e: Entry)
    requires NodesOk(s) && Traced(s) && Minted(w, s) && Step(w, s, s', a)
    requires e in s.log && e.at < |s.nodes| && |s'.nodes| == |s.nodes| && TakenOk(w, s.nodes[e.at], s.now, e)
    ensures TakenOk(w, s'.nodes[e.at], s'.now, e)
  {
    hide NodeOk, Minted, Traced, Step, Frees, IsAlive, TExp, Known;
    StepNode(w, s, s', a);
    var n := s.nodes[e.at];
    var r := if e.Taken? then Record(e.b.id, n.self, e.t, e.t + TIMEOUT_DEFAULT) else Record(0, 0, 0.0, 0.0);
    if e.Taken? && e.at == a.i && r in n.records {
      RecordStays(w, s, s', a, r);
      if r !in s'.nodes[e.at].records && s'.now < r.timeout {
        var c :| Frees(w, n, a, c) && c.id == r.id && (a.Turn? ==> !IsAlive(c, s'.now, w.val));
        LoggedKnown(s, e);
        FreedExpired(w, s, s', a, e.b, c);
      }
    }
  }

  lemma LoggedKnown(s: Net, e: Entry)
    requires Traced(s) && e in s.log
    ensures Known(s.log, e.b)
  {
  }

  /** A step's one acceptance, if any. */
  lemma AddedTaken(w: World, s: Net, s': Net, a: Action, k: nat)
    requires Step(w, s, s', a) && s.log <= s'.log && |s.log| <= k < |s'.log| && s'.log[k].Taken?
    ensures a.Hear? && a.i < |s.nodes| && k == |s.log| && s'.now == a.t && s.now <= a.t && Reaching(s.air, a.f)
    ensures var r := Receive(s.nodes[a.i], a.t, a.f, w);
      && s'.nodes == s.nodes[a.i := r.0] && r.1.InCustody? && s'.log[k] == Taken(a.i, r.1.b, a.t, r.1.code >= 0)
  {
    hide Receive, TickStep, Generate, NewBundle, Admit, Displaced, Reaching;
  }

  /** What an acceptance tells: the frame's bundle is for another node, alive, not held here, and
      recorded if there is room. */
  lemma TakenFacts(n: Node, t: real, f: seq<bv8>, w: World)
    requires NodeOk(n) && Receive(n, t, f, w).1.InCustody?
    ensures Parse(f).Accepted?
    ensures var b, c, n' := Parse(f).bundle, Receive(n, t, f, w).1.b, Receive(n, t, f, w).0;
      && SameOrigin(b, c) && b.dst != n.self && IsAlive(b, t, w.val) && n'.self == n.self
      && (forall r :: r in n.records ==> r.id != b.id)
      && (Recordable(n.records, b.id) ==> Record(b.id, n.self, t, t + n.period) in n'.records)
  {
    hide Parse, Admit, Transferred, Free, Load, IsAlive, Rejecting, TableOk, Recordable;
    var b := Parse(f).bundle;
    TransferKeepsTable(n.records, b.id, n.self, t, n.period);
    forall r | r in n.records ensures r.id != b.id {
      var k :| 0 <= k < |n.records| && n.records[k] == r;
      assert r.id == b.id ==> Holds(n.records, b.id, n.self);
    }
  }

  lemma TakenIsOk(w: World, s: Net, s': Net, a: Action, k: nat)
    requires NodesOk(s) && Traced(s) && Minted(w, s) && Step(w, s, s', a) && RoomyStep(w, s, a)
    requires s.log <= s'.log && |s.log| <= k < |s'.log| && s'.log[k].Taken?
    ensures a.i < |s'.nodes| && s'.log[k].at == a.i && TakenOk(w, s'.nodes[a.i], s'.now, s'.log[k])
  {
    hide Step, Receive, Minted, Traced, Known, NodesOk, NodeOk, Recordable, Parse, Reaching;
    NodeAt(s, a.i);
    AddedTaken(w, s, s', a, k);
    TakenFacts(s.nodes[a.i], a.t, a.f, w);
    HeardKnown(w, s, a.f);
    GeneratedBefore(w, s, Parse(a.f).bundle);
  }

  lemma NodeAt(s: Net, i: nat)
    requires NodesOk(s)
    ensures i < |s.nodes| ==> NodeOk(s.nodes[i]) && s.nodes[i].period == TIMEOUT_DEFAULT
  {
    hide NodeOk;
  }

  lemma GeneratedBefore(w: World, s: Net, b: Bundle)
    requires Minted(w, s) && Known(s.log, b)
    ensures w.val(b.tGen) <= s.now && b.ttl == TTL_ONE_HOUR
  {
    hide MakeId, Below, InRange;
    var k :| 0 <= k < |s.log| && MadeAs(s.log[k], b);
    assert MintedAt(w, s.nodes[s.log[k].at], s.now, s.log[k]);
  }

  lemma NewIsApart(w: World, s: Net, s': Net, a: Action, k: nat, d: Entry)
    requires NodesOk(s) && Traced(s) && Minted(w, s) && Step(w, s, s', a)
    requires s.log <= s'.log && |s.log| <= k < |s'.log| && s'.log[k].Taken?
    requires d in s.log && d.at < |s.nodes| && TakenOk(w, s.nodes[d.at], s.now, d)
    ensures Apart(d, s'.log[k])
  {
    hide Step, Receive, Minted, Traced, Known, NodeOk, Recordable, Parse, Reaching;
    AddedTaken(w, s, s', a, k);
    TakenFacts(s.nodes[a.i], a.t, a.f, w);
    if d.Taken? && d.at == a.i && d.b.id == s'.log[k].b.id {
      HeardKnown(w, s, a.f);
      LoggedKnown(s, d);
      SameIdSameOrigin(w, s, d.b, Parse(a.f).bundle);
    }
  }

  lemma StepSpaced(w: World, s: Net, s': Net, a: Action)
    requires NodesOk(s) && Traced(s) && Minted(w, s) && Spaced(w, s) && Step(w, s, s', a) && RoomyStep(w, s, a)
    ensures Spaced(w, s')
  {
    hide Step, NodeOk, Minted, Traced, TakenOk, Apart, RoomyStep;
    StepNode(w, s, s', a);
    forall k | 0 <= k < |s'.log|
      ensures s'.log[k].at < |s'.nodes| && TakenOk(w, s'.nodes[s'.log[k].at], s'.now, s'.log[k])
    {
      assert s'.log[k] in s'.log;
      if k < |s.log| {
        assert s'.log[k] == s.log[k];
        GuardStays(w, s, s', a, s.log[k]);
      } else if s'.log[k].Taken? {
        TakenIsOk(w, s, s', a, k);
      } else {
        NotTaken(w, s'.nodes[s'.log[k].at], s'.now, s'.log[k]);
      }
    }
    forall j, k | 0 <= j < k < |s'.log| ensures Apart(s'.log[j], s'.log[k]) {
      assert j < |s.log| ==> s'.log[j] == s.log[j];
      if k < |s.log| {
        assert s'.log[k] == s.log[k];
      } else if s'.log[k].Taken? && s'.log[j].Taken? {
        AddedTaken(w, s, s', a, k);
        NewIsApart(w, s, s', a, k, s.log[j]);
      } else {
        NotApart(s'.log[j], s'.log[k]);
      }
    }
  }

  lemma NotTaken(w: World, n: Node, now: real, e: Entry)
    requires !e.Taken?
    ensures TakenOk(w, n, now, e)
  {
  }

  lemma NotApart(d: Entry, e: Entry)
    requires !d.Taken? || !e.Taken?
    ensures Apart(d, e)
  {
  }

  lemma {:induction false} RunSpaced(w: World, ss: seq<Net>, acts: seq<Action>, k: nat)
    requires Run(w, ss, acts) && TablesRoomy(w, ss, acts) && k < |ss|
    ensures Spaced(w, ss[k])
  {
    hide NodesOk, Traced, Minted, Step, RoomyStep;
    if k == 0 {
    } else {
      RunSpaced(w, ss, acts, k - 1);
      RunKeeps(w, ss, acts, k - 1);
      assert Step(w, ss[k - 1], ss[k - 1 + 1], acts[k - 1]) && RoomyStep(w, ss[k - 1], acts[k - 1]);
      StepSpaced(w, ss[k - 1], ss[k], acts[k - 1]);
    }
  }

  // ---- Counting entries about one bundle ----

  datatype Kind = Generation | Acceptance | Relay

  predicate Is(e: Entry, kind: Kind, id: BundleId) {
    e.b.id == id &&
    match kind
    case Generation => e.Made?
    case Acceptance => e.Taken?
    case Relay => e.Relayed?
  }

  function Tally(log: seq<Entry>, kind: Kind, id: BundleId): nat {
    if log == [] then 0
    else Tally(log[..|log| - 1], kind, id) + if Is(log[|log| - 1], kind, id) then 1 else 0
  }

  function TallyAt(log: seq<Entry>, kind: Kind, id: BundleId, i: nat): nat {
    if log == [] then 0
    else
      var e := log[|log| - 1];
      TallyAt(log[..|log| - 1], kind, id, i) + if Is(e, kind, id) && e.at == i then 1 else 0
  }

  /** Sum over the first `m` nodes. */
  function TallyOver(log: seq<Entry>, kind: Kind, id: BundleId, m: nat): nat {
    if m == 0 then 0 else TallyOver(log, kind, id, m - 1) + TallyAt(log, kind, id, m - 1)
  }

  lemma {:induction false} TallyOverStep(log: seq<Entry>, kind: Kind, id: BundleId, m: nat)
    requires log != []
    ensures var e := log[|log| - 1];
      TallyOver(log, kind, id, m)
      == TallyOver(log[..|log| - 1], kind, id, m) + if Is(e, kind, id) && e.at < m then 1 else 0
  {
    hide Is;
    if m == 0 {
    } else {
      TallyOverStep(log, kind, id, m - 1);
    }
  }

  lemma {:induction false} TallySplits(log: seq<Entry>, kind: Kind, id: BundleId, m: nat)
    requires forall e :: e in log ==> e.at < m
    ensures Tally(log, kind, id) == TallyOver(log, kind, id, m)
  {
    hide Is;
    if log == [] {
      NothingOver(kind, id, m);
    } else {
      assert log[|log| - 1] in log;
      TallySplits(log[..|log| - 1], kind, id, m);
      TallyOverStep(log, kind, id, m);
    }
  }

  lemma {:induction false} NothingOver(kind: Kind, id: BundleId, m: nat)
    ensures TallyOver([], kind, id, m) == 0
  {
    if m == 0 {
    } else {
      NothingOver(kind, id, m - 1);
    }
  }

  /** The latest counted entry. */
  lemma {:induction false} LatestAt(log: seq<Entry>, kind: Kind, id: BundleId, i: nat) returns (k: nat)
    requires TallyAt(log, kind, id, i) > 0
    ensures k < |log| && Is(log[k], kind, id) && log[k].at == i
    ensures TallyAt(log[..k], kind, id, i) == TallyAt(log, kind, id, i) - 1
  {
    hide Is;
    k := |log| - 1;
    if !(Is(log[k], kind, id) && log[k].at == i) {
      k := LatestAt(log[..k], kind, id, i);
      assert log[..|log| - 1][..k] == log[..k];
    }
  }

  lemma {:induction false} Latest(log: seq<Entry>, kind: Kind, id: BundleId) returns (k: nat)
    requires Tally(log, kind, id) > 0
    ensures k < |log| && Is(log[k], kind, id) && Tally(log[..k], kind, id) == Tally(log, kind, id) - 1
  {
    hide Is;
    k := |log| - 1;
    if !Is(log[k], kind, id) {
      k := Latest(log[..k], kind, id);
      assert log[..|log| - 1][..k] == log[..k];
    }
  }

  // ---- At most two acceptances per node ----

  lemma BothKnown(w: World, s: Net, j: nat, k: nat)
    requires NodesOk(s) && Traced(s) && Minted(w, s) && j < |s.log| && k < |s.log| && s.log[j].b.id == s.log[k].b.id
    ensures SameOrigin(s.log[j].b, s.log[k].b) && s.log[j].b.ttl == TTL_ONE_HOUR
  {
    hide NodesOk, Minted, Traced, Known;
    LoggedKnown(s, s.log[j]);
    LoggedKnown(s, s.log[k]);
    SameIdSameOrigin(w, s, s.log[j].b, s.log[k].b);
    GeneratedBefore(w, s, s.log[j].b);
  }

  lemma TwiceAtMost(w: World, s: Net, id: BundleId, i: nat)
    requires NodesOk(s) && Traced(s) && Minted(w, s) && Spaced(w, s) && w.val(TTL_ONE_HOUR) == 3600.0
    ensures TallyAt(s.log, Acceptance, id, i) <= 2
  {
    hide NodesOk, Traced, Minted, TallyAt;
    if TallyAt(s.log, Acceptance, id, i) > 2 {
      var z := LatestAt(s.log, Acceptance, id, i);
      var y := LatestAt(s.log[..z], Acceptance, id, i);
      assert s.log[..z][..y] == s.log[..y];
      var x := LatestAt(s.log[..y], Acceptance, id, i);
      BothKnown(w, s, x, z);
      assert false;
    }
  }

  lemma NeverAtDestination(w: World, s: Net, g: nat, i: nat)
    requires NodesOk(s) && Traced(s) && Minted(w, s) && Spaced(w, s)
    requires g < |s.log| && i < |s.nodes| && s.log[g].b.dst == s.nodes[i].self
    ensures TallyAt(s.log, Acceptance, s.log[g].b.id, i) == 0
  {
    hide NodesOk, Traced, Minted, TallyAt;
    if TallyAt(s.log, Acceptance, s.log[g].b.id, i) > 0 {
      var k := LatestAt(s.log, Acceptance, s.log[g].b.id, i);
      BothKnown(w, s, g, k);
      assert false;
    }
  }

  lemma OneGeneration(w: World, s: Net, id: BundleId)
    requires NodesOk(s) && Minted(w, s)
    ensures Tally(s.log, Generation, id) <= 1
  {
    hide NodesOk, Minted, Tally;
    if Tally(s.log, Generation, id) > 1 {
      var k := Latest(s.log, Generation, id);
      var j := Latest(s.log[..k], Generation, id);
      UniqueIds(w, s, j, k);
    }
  }

  // ---- Transmissions against acceptances ----

  function CountId(bs: seq<Bundle>, id: BundleId): nat {
    if bs == [] then 0 else CountId(bs[..|bs| - 1], id) + if bs[|bs| - 1].id == id then 1 else 0
  }

  lemma {:induction false} CountConcat(a: seq<Bundle>, b: seq<Bundle>, id: BundleId)
    ensures CountId(a + b, id) == CountId(a, id) + CountId(b, id)
  {
    if b == [] {
      assert a + b == a;
    } else {
      assert (a + b)[..|a + b| - 1] == a + b[..|b| - 1];
      CountConcat(a, b[..|b| - 1], id);
    }
  }

  lemma CountOne(x: Bundle, id: BundleId)
    ensures CountId([x], id) == if x.id == id then 1 else 0
    ensures CountId([], id) == 0
  {
    assert [x][..0] == [];
  }

  lemma {:induction false} CountWithin(a: seq<Bundle>, b: seq<Bundle>, id: BundleId)
    requires multiset(b) <= multiset(a)
    ensures CountId(b, id) <= CountId(a, id)
    decreases |b|
  {
    hide CountId;
    if b == [] {
      CountEmpty(id);
    } else {
      var x, rest := b[|b| - 1], b[..|b| - 1];
      assert b == rest + [x];
      var before, after := RemoveOne(a, rest, x);
      assert a == before + ([x] + after);
      CountConcat(rest, [x], id);
      CountConcat(before, [x] + after, id);
      CountConcat([x], after, id);
      CountConcat(before, after, id);
      CountWithin(before + after, rest, id);
    }
  }

  lemma CountEmpty(id: BundleId)
    ensures CountId([], id) == 0
  {
  }

  lemma RemoveOne(a: seq<Bundle>, rest: seq<Bundle>, x: Bundle) returns (before: seq<Bundle>, after: seq<Bundle>)
    requires multiset(rest + [x]) <= multiset(a)
    ensures a == before + ([x] + after) && multiset(rest) <= multiset(before + after)
  {
    assert multiset(rest + [x]) == multiset(rest) + multiset{x};
    assert x in multiset(a);
    var k :| 0 <= k < |a| && a[k] == x;
    before, after := a[..k], a[k + 1..];
    assert a == before + ([x] + after);
    assert multiset(a) == multiset(before) + (multiset{x} + multiset(after));
    forall y: Bundle ensures multiset(rest)[y] <= multiset(before + after)[y] {
      assert multiset(before + after)[y] == multiset(before)[y] + multiset(after)[y];
      assert multiset(rest + [x])[y] <= multiset(a)[y];
    }
  }

  lemma {:induction false} EnteredCounts(log: seq<Entry>, id: BundleId, i: nat)
    ensures CountId(EnteredAt(log, i), id) <= TallyAt(log, Generation, id, i) + TallyAt(log, Acceptance, id, i)
  {
    hide CountId;
    if log == [] {
      CountEmpty(id);
    } else {
      var before, e := log[..|log| - 1], log[|log| - 1];
      EnteredCounts(before, id, i);
      CountConcat(EnteredAt(before, i), [e.b], id);
      CountOne(e.b, id);
      assert EnteredAt(before, i) + [] == EnteredAt(before, i);
    }
  }

  lemma {:induction false} LeftCounts(log: seq<Entry>, id: BundleId, i: nat)
    ensures TallyAt(log, Relay, id, i) <= CountId(LeftAt(log, i), id)
  {
    hide CountId;
    if log == [] {
    } else {
      var before, e := log[..|log| - 1], log[|log| - 1];
      LeftCounts(before, id, i);
      CountConcat(LeftAt(before, i), [e.b], id);
      CountOne(e.b, id);
      assert LeftAt(before, i) + [] == LeftAt(before, i);
    }
  }

  lemma RelaysAtNode(s: Net, id: BundleId, i: nat)
    requires Conserved(s) && i < |s.nodes|
    ensures TallyAt(s.log, Relay, id, i) <= TallyAt(s.log, Generation, id, i) + TallyAt(s.log, Acceptance, id, i)
  {
    hide TallyAt, CountId, EnteredAt, LeftAt;
    EnteredCounts(s.log, id, i);
    LeftCounts(s.log, id, i);
    CountWithin(EnteredAt(s.log, i), LeftAt(s.log, i), id);
  }

  /** Nodes among the first `m` that may carry a bundle for `dst`. */
  function Carriers(nodes: seq<Node>, dst: NodeId, m: nat): nat
    requires m <= |nodes|
  {
    if m == 0 then 0 else Carriers(nodes, dst, m - 1) + if nodes[m - 1].self != dst then 1 else 0
  }

  lemma {:induction false} CarriersBelow(nodes: seq<Node>, dst: NodeId, m: nat)
    requires m <= |nodes|
    ensures Carriers(nodes, dst, m) <= m
    ensures (exists i :: 0 <= i < m && nodes[i].self == dst) ==> Carriers(nodes, dst, m) <= m - 1
  {
    if m == 0 {
    } else {
      CarriersBelow(nodes, dst, m - 1);
    }
  }

  lemma {:induction false} RelaysOver(w: World, s: Net, g: nat, m: nat)
    requires NodesOk(s) && Conserved(s) && Traced(s) && Minted(w, s) && Spaced(w, s) && w.val(TTL_ONE_HOUR) == 3600.0
    requires g < |s.log| && m <= |s.nodes|
    ensures var id, dst := s.log[g].b.id, s.log[g].b.dst;
      TallyOver(s.log, Relay, id, m) <= TallyOver(s.log, Generation, id, m) + 2 * Carriers(s.nodes, dst, m)
  {
    hide NodesOk, Conserved, Traced, Minted, Spaced, TallyAt;
    if m == 0 {
    } else {
      RelaysOver(w, s, g, m - 1);
      RelaysAtNode(s, s.log[g].b.id, m - 1);
      TwiceAtMost(w, s, s.log[g].b.id, m - 1);
      if s.nodes[m - 1].self == s.log[g].b.dst {
        NeverAtDestination(w, s, g, m - 1);
      }
    }
  }

  // ---- The main results ----

  /** Over every run whose custody tables always have room, two acceptances of one bundle at one
      node are at least 1800 s apart and no node accepts a bundle more than twice. */
  lemma AcceptedAtMostTwice(w: World, ss: seq<Net>, acts: seq<Action>, k: nat, id: BundleId, i: nat)
    requires Run(w, ss, acts) && TablesRoomy(w, ss, acts) && w.val(TTL_ONE_HOUR) == 3600.0 && k < |ss|
    ensures forall x, y :: 0 <= x < y < |ss[k].log| ==> Apart(ss[k].log[x], ss[k].log[y])
    ensures TallyAt(ss[k].log, Acceptance, id, i) <= 2
  {
    hide Run, NodesOk, Traced, Minted, Conserved, TallyAt, TablesRoomy;
    RunKeeps(w, ss, acts, k);
    RunSpaced(w, ss, acts, k);
    TwiceAtMost(w, ss[k], id, i);
  }

  /** Flooding bound: whatever is lost, delayed, repeated or overheard, the transmissions of one
      bundle number at most one for its generation and two for every node that is not its
      destination. */
  lemma FloodingBound(w: World, ss: seq<Net>, acts: seq<Action>, k: nat, b: Bundle)
    requires Run(w, ss, acts) && TablesRoomy(w, ss, acts) && w.val(TTL_ONE_HOUR) == 3600.0
    requires k < |ss| && Present(ss[k], b)
    ensures Tally(ss[k].log, Relay, b.id) <= 2 * Carriers(ss[k].nodes, b.dst, |ss[k].nodes|) + 1
  {
    hide Run, NodesOk, Traced, Minted, Conserved, Spaced, TablesRoomy, Present, Tally, TallyOver, Carriers;
    var s := ss[k];
    RunKeeps(w, ss, acts, k);
    RunSpaced(w, ss, acts, k);
    OneOrigin(w, ss, acts, k, b);
    var g :| OnlyOrigin(s.log, b, g);
    EntriesAt(s);
    RelaysOver(w, s, g, |s.nodes|);
    TallySplits(s.log, Relay, b.id, |s.nodes|);
    TallySplits(s.log, Generation, b.id, |s.nodes|);
    OneGeneration(w, s, b.id);
  }

  /** In a network of n nodes that contains the destination that is at most 2(n-1)+1. */
  lemma FloodingBoundByNodes(w: World, ss: seq<Net>, acts: seq<Action>, k: nat, b: Bundle, i: nat)
    requires Run(w, ss, acts) && TablesRoomy(w, ss, acts) && w.val(TTL_ONE_HOUR) == 3600.0
    requires k < |ss| && Present(ss[k], b) && i < |ss[k].nodes| && ss[k].nodes[i].self == b.dst
    ensures Tally(ss[k].log, Relay, b.id) <= 2 * (|ss[k].nodes| - 1) + 1
  {
    hide Run, TablesRoomy, Present, Tally, Carriers;
    FloodingBound(w, ss, acts, k, b);
    CarriersBelow(ss[k].nodes, b.dst, |ss[k].nodes|);
  }

  lemma EntriesAt(s: Net)
    requires NodesOk(s)
    ensures forall e :: e in s.log ==> e.at < |s.nodes|
  {
    hide NodeOk;
  }
}
