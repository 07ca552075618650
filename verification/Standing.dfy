/** What the custody tables of a running network stand for: which acceptance is behind a record,
    whether its bundle is still queued, and when a table can run full. */
module Standing {
  import opened Bundles
  import CgrLimits
  import CgrSearch
  import opened Codec
  import opened Queues
  import opened Custodies
  import opened NodeModel
  import opened Network
  import opened Provenance
  import opened Flooding

  // ---- Behind every record there is an acceptance ----

  /** Entry `k` is the acceptance by node `i`, named `self`, that `r` records. */
  ghost predicate BackedBy(log: seq<Entry>, i: nat, self: NodeId, r: Record, k: nat) {
    k < |log| && log[k].Taken? && log[k].at == i && r == Record(log[k].b.id, self, log[k].t, log[k].t + TIMEOUT_DEFAULT)
  }

  ghost predicate Backed(log: seq<Entry>, i: nat, self: NodeId, r: Record) { exists k :: BackedBy(log, i, self, r, k) }

  ghost predicate AllBacked(s: Net) {
    forall i, r :: 0 <= i < |s.nodes| && r in s.nodes[i].records ==> Backed(s.log, i, s.nodes[i].self, r)
  }

  lemma BackedLater(log: seq<Entry>, log': seq<Entry>, i: nat, self: NodeId, r: Record)
    requires Backed(log, i, self, r) && log <= log'
    ensures Backed(log', i, self, r)
  {
    var k :| BackedBy(log, i, self, r, k);
    assert BackedBy(log', i, self, r, k);
  }

  lemma HearMakes(n: Node, t: real, f: seq<bv8>, w: World, r: Record)
    requires NodeOk(n) && r in Receive(n, t, f, w).0.records
    ensures var out := Receive(n, t, f, w).1;
      r in n.records || (out.InCustody? && r == Record(out.b.id, n.self, t, t + n.period))
  {
    hide Parse, Admit, Released, Transferred, Free, Load, Acceptable, Recordable;
    if Parse(f).Accepted? {
      var b := Parse(f).bundle;
      ReleaseKeepsTable(n.records, b.id);
      TransferKeepsTable(n.records, b.id, n.self, t, n.period);
    }
  }

  lemma TurnMakes(w: World, n: Node, t: real, n': Node, ev: Ticked, r: Record)
    requires NodeOk(n) && TickStep(n, t, n', ev, w) && r in n'.records
    ensures r in n.records
  {
    hide Parse, Admit, Released, Swept, Load, IsAlive, FirstHop, GoesBack, Head, Behead, Codec.Frame;
    SweepMembers(n.records, t);
    SweepExact(n.records, t);
    if ev.Lapsed? {
      ReleaseKeepsTable(Swept(n.records, t), ev.b.id);
    }
  }

  /** A step's new record is that of its acceptance. */
  lemma StepMakes(w: World, s: Net, s': Net, a: Action, r: Record)
    requires NodesOk(s) && Step(w, s, s', a) && a.i < |s.nodes| && |s'.nodes| == |s.nodes| && s.log <= s'.log
    requires r in s'.nodes[a.i].records && r !in s.nodes[a.i].records
    ensures Backed(s'.log, a.i, s.nodes[a.i].self, r)
  {
    hide Parse, Admit, NodeOk, Receive, TickStep, NewBundle, Reaching, IsAlive, Displaced;
    if a.Hear? {
      HearMakes(s.nodes[a.i], a.t, a.f, w, r);
      assert BackedBy(s'.log, a.i, s.nodes[a.i].self, r, |s.log|);
    } else if a.Turn? {
      TurnMakes(w, s.nodes[a.i], a.t, a.n, a.ev, r);
    }
  }

  lemma StepBacked(w: World, s: Net, s': Net, a: Action)
    requires NodesOk(s) && AllBacked(s) && Step(w, s, s', a)
    ensures AllBacked(s')
  {
    hide Step, NodeOk, Backed;
    StepNode(w, s, s', a);
    forall i, r | 0 <= i < |s'.nodes| && r in s'.nodes[i].records ensures Backed(s'.log, i, s'.nodes[i].self, r) {
      if r in s.nodes[i].records {
        BackedLater(s.log, s'.log, i, s.nodes[i].self, r);
      } else {
        StepMakes(w, s, s', a, r);
      }
    }
  }

  /** Over every run each custody record is that of an acceptance in the log. */
  lemma {:induction false} RunBacked(w: World, ss: seq<Net>, acts: seq<Action>, k: nat)
    requires Run(w, ss, acts) && k < |ss|
    ensures AllBacked(ss[k])
  {
    hide Step, NodesOk, AllBacked;
    if k == 0 {
      StartBacked(ss[0]);
    } else {
      RunBacked(w, ss, acts, k - 1);
      RunKeeps(w, ss, acts, k - 1);
      assert Step(w, ss[k - 1], ss[k - 1 + 1], acts[k - 1]);
      StepBacked(w, ss[k - 1], ss[k], acts[k - 1]);
    }
  }

  lemma StartBacked(s: Net)
    requires Start(s)
    ensures AllBacked(s)
  {
    forall i | 0 <= i < |s.nodes| ensures s.nodes[i].records == [] {
      assert FreshNode(s.nodes[i]);
    }
  }

  // ---- Whether a recorded bundle is still queued ----

  predicate Enters(e: Entry, i: nat, id: BundleId) {
    e.at == i && e.b.id == id && (e.Made? || (e.Taken? && e.queued))
  }

  predicate Leaves(e: Entry, i: nat, id: BundleId) {
    e.at == i && e.b.id == id && (e.Relayed? || e.Evicted? || e.Aged?)
  }

  function Count(log: seq<Entry>, p: Entry -> bool): nat {
    if log == [] then 0 else Count(log[..|log| - 1], p) + if p(log[|log| - 1]) then 1 else 0
  }

  lemma {:induction false} EntriesCount(log: seq<Entry>, i: nat, id: BundleId)
    ensures CountId(EnteredAt(log, i), id) == Count(log, e => Enters(e, i, id))
    ensures CountId(LeftAt(log, i), id) == Count(log, e => Leaves(e, i, id))
  {
    hide CountId;
    if log == [] {
      CountEmpty(id);
    } else {
      var before, e := log[..|log| - 1], log[|log| - 1];
      EntriesCount(before, i, id);
      CountConcat(EnteredAt(before, i), [e.b], id);
      CountConcat(LeftAt(before, i), [e.b], id);
      CountOne(e.b, id);
      assert EnteredAt(before, i) + [] == EnteredAt(before, i) && LeftAt(before, i) + [] == LeftAt(before, i);
    }
  }

  lemma CountSplits(a: seq<Bundle>, b: seq<Bundle>, c: seq<Bundle>, id: BundleId)
    requires multiset(a) == multiset(b) + multiset(c)
    ensures CountId(a, id) == CountId(b, id) + CountId(c, id)
  {
    hide CountId;
    assert multiset(b + c) == multiset(a);
    CountWithin(a, b + c, id);
    CountWithin(b + c, a, id);
    CountConcat(b, c, id);
  }

  lemma {:induction false} CountPositive(bs: seq<Bundle>, id: BundleId)
    ensures CountId(bs, id) > 0 <==> exists b :: b in bs && b.id == id
  {
    if bs == [] {
    } else {
      var pre, last := bs[..|bs| - 1], bs[|bs| - 1];
      CountPositive(pre, id);
      assert bs == pre + [last];
      if last.id == id {
        assert last in bs;
      }
    }
  }

  /** Over every run a bundle, recorded or not, is queued at a node exactly when the log has it
      enter that queue more often than leave it. */
  lemma QueuedIffEnteredMore(w: World, ss: seq<Net>, acts: seq<Action>, k: nat, i: nat, id: BundleId)
    requires Run(w, ss, acts) && k < |ss| && i < |ss[k].nodes|
    ensures (exists b :: b in ss[k].nodes[i].queue && b.id == id)
            <==> Count(ss[k].log, e => Enters(e, i, id)) > Count(ss[k].log, e => Leaves(e, i, id))
  {
    hide Run, EnteredAt, LeftAt, CountId, Count, Enters, Leaves;
    var s := ss[k];
    RunConserves(w, ss, acts, k, i);
    CountSplits(EnteredAt(s.log, i), LeftAt(s.log, i), s.nodes[i].queue, id);
    CountPositive(s.nodes[i].queue, id);
    EntriesCount(s.log, i, id);
  }

  // ---- Few bundles leave every table room ----

  function MadeIds(log: seq<Entry>): seq<BundleId> {
    if log == [] then []
    else
      var e := log[|log| - 1];
      MadeIds(log[..|log| - 1]) + if e.Made? then [e.b.id] else []
  }

  /** Generation requests in a run. */
  function Originations(acts: seq<Action>): nat {
    if acts == [] then 0 else Originations(acts[..|acts| - 1]) + if acts[|acts| - 1].Originate? then 1 else 0
  }

  lemma {:induction false} MadeIdListed(log: seq<Entry>, k: nat)
    requires k < |log| && log[k].Made?
    ensures log[k].b.id in MadeIds(log)
  {
    if k == |log| - 1 {
    } else {
      MadeIdListed(log[..|log| - 1], k);
    }
  }

  lemma KnownIdListed(log: seq<Entry>, b: Bundle)
    requires Known(log, b)
    ensures b.id in MadeIds(log)
  {
    var k :| 0 <= k < |log| && MadeAs(log[k], b);
    MadeIdListed(log, k);
  }

  lemma {:induction false} MadeIdsGrow(log: seq<Entry>, more: seq<Entry>, limit: nat)
    requires limit <= 1 && forall k :: 0 <= k < |more| && more[k].Made? ==> k == |more| - 1 && limit == 1
    ensures |MadeIds(log + more)| <= |MadeIds(log)| + limit
  {
    if more == [] {
      assert log + more == log;
    } else {
      var pre := more[..|more| - 1];
      assert (log + more)[..|log + more| - 1] == log + pre;
      MadeIdsGrow(log, pre, 0);
    }
  }

  lemma StepMadeIds(w: World, s: Net, s': Net, a: Action)
    requires NodesOk(s) && Step(w, s, s', a)
    ensures |MadeIds(s'.log)| <= |MadeIds(s.log)| + if a.Originate? then 1 else 0
  {
    hide Step, NodesOk, MadeIds;
    StepNode(w, s, s', a);
    var more := s'.log[|s.log|..];
    assert s'.log == s.log + more;
    forall k | 0 <= k < |more| && more[k].Made? ensures k == |more| - 1 && a.Originate? {
      AddedGeneration(w, s, s', a, |s.log| + k);
    }
    MadeIdsGrow(s.log, more, if a.Originate? then 1 else 0);
  }

  lemma LastOrigination(acts: seq<Action>, k: nat)
    requires 0 < k <= |acts|
    ensures Originations(acts[..k]) == Originations(acts[..k - 1]) + if acts[k - 1].Originate? then 1 else 0
  {
    assert acts[..k][..k - 1] == acts[..k - 1];
  }

  lemma {:induction false} RunMadeIds(w: World, ss: seq<Net>, acts: seq<Action>, k: nat)
    requires Run(w, ss, acts) && k < |ss|
    ensures |MadeIds(ss[k].log)| <= Originations(acts[..k])
  {
    hide Step, NodesOk, Conserved, Traced, Minted;
    if k == 0 {
    } else {
      hide MadeIds, Originations;
      RunMadeIds(w, ss, acts, k - 1);
      RunKeeps(w, ss, acts, k - 1);
      assert Step(w, ss[k - 1], ss[k - 1 + 1], acts[k - 1]);
      StepMadeIds(w, ss[k - 1], ss[k], acts[k - 1]);
      LastOrigination(acts, k);
    }
  }

  lemma {:induction false} PrefixOriginations(acts: seq<Action>, k: nat)
    requires k <= |acts|
    ensures Originations(acts[..k]) <= Originations(acts)
    decreases |acts| - k
  {
    if k == |acts| {
      assert acts[..k] == acts;
    } else {
      PrefixOriginations(acts, k + 1);
      assert acts[..k + 1][..k] == acts[..k];
    }
  }

  /** Records and the bundle now taken all stem from logged generations: a table without room
      means more of them than it holds. */
  lemma FullNeedsMore(w: World, s: Net, i: nat, id: BundleId)
    requires NodesOk(s) && Traced(s) && AllBacked(s) && i < |s.nodes| && id in MadeIds(s.log)
    requires !Recordable(s.nodes[i].records, id)
    ensures |MadeIds(s.log)| > CUSTODY_MAX
  {
    hide Traced, NodesOk, Known, MadeIds, AllBacked;
    var records := s.nodes[i].records;
    var ids := seq(|records|, k requires 0 <= k < |records| => records[k].id) + [id];
    assert TableOk(records) by { NodeAt(s, i); TableAt(s, i); }
    forall k | 0 <= k < |ids| ensures ids[k] in MadeIds(s.log) {
      if k < |records| {
        RecordListed(s, i, records[k]);
      }
    }
    var all := set x | x in MadeIds(s.log);
    DistinctIds(ids, all);
    IdCount(MadeIds(s.log));
  }

  lemma TableAt(s: Net, i: nat)
    requires NodesOk(s) && i < |s.nodes|
    ensures TableOk(s.nodes[i].records)
  {
    assert NodeOk(s.nodes[i]);
  }

  lemma RecordListed(s: Net, i: nat, r: Record)
    requires Traced(s) && AllBacked(s) && i < |s.nodes| && r in s.nodes[i].records
    ensures r.id in MadeIds(s.log)
  {
    hide Traced, Known, MadeIds;
    assert Backed(s.log, i, s.nodes[i].self, r);
    var k: nat :| BackedBy(s.log, i, s.nodes[i].self, r, k);
    LoggedKnown(s, s.log[k]);
    KnownIdListed(s.log, s.log[k].b);
  }

  lemma DistinctIds(s: seq<BundleId>, S: set<BundleId>)
    requires forall i, j :: 0 <= i < j < |s| ==> s[i] != s[j]
    requires forall i :: 0 <= i < |s| ==> s[i] in S
    ensures |s| <= |S|
  {
    CgrSearch.DistinctCount(s, S);
  }

  lemma IdCount(s: seq<BundleId>)
    ensures |set x | x in s| <= |s|
  {
    CgrLimits.ElementCount(s);
  }

  /** A run with at most 32 generation requests never takes custody without recording it. */
  lemma FewBundlesRoomy(w: World, ss: seq<Net>, acts: seq<Action>)
    requires Run(w, ss, acts) && Originations(acts) <= 32
    ensures TablesRoomy(w, ss, acts)
  {
    assert |ss| == |acts| + 1;
    hide Run, NodesOk, Traced, AllBacked, Receive, Recordable, Minted, Conserved, MadeIds;
    forall k | 0 <= k < |acts| ensures RoomyStep(w, ss[k], acts[k]) {
      var s, a := ss[k], acts[k];
      RunKeeps(w, ss, acts, k);
      RunBacked(w, ss, acts, k);
      RunMadeIds(w, ss, acts, k);
      PrefixOriginations(acts, k);
      if a.Hear? && a.i < |s.nodes| && Receive(s.nodes[a.i], a.t, a.f, w).1.InCustody? {
        HeardStep(w, ss, acts, k);
        var id := Receive(s.nodes[a.i], a.t, a.f, w).1.b.id;
        HeardListed(w, s, a.i, a.t, a.f);
        if !Recordable(s.nodes[a.i].records, id) {
          FullNeedsMore(w, s, a.i, id);
        }
      }
    }
  }

  lemma HeardStep(w: World, ss: seq<Net>, acts: seq<Action>, k: nat)
    requires Run(w, ss, acts) && k < |acts| && acts[k].Hear?
    ensures Reaching(ss[k].air, acts[k].f)
  {
    hide Reaching, Receive;
    assert Step(w, ss[k], ss[k + 1], acts[k]);
  }

  lemma HeardListed(w: World, s: Net, i: nat, t: real, f: seq<bv8>)
    requires Traced(s) && i < |s.nodes| && Reaching(s.air, f) && Receive(s.nodes[i], t, f, w).1.InCustody?
    ensures Receive(s.nodes[i], t, f, w).1.b.id in MadeIds(s.log)
  {
    hide Traced, Known, MadeIds, Receive, Reaching, Parse;
    ReceivedOrigin(s.nodes[i], t, f, w);
    HeardKnown(w, s, f);
    KnownIdListed(s.log, Parse(f).bundle);
  }

  /** The flooding bound under a condition read off the requests alone. */
  lemma FloodingBoundFewBundles(w: World, ss: seq<Net>, acts: seq<Action>, k: nat, b: Bundle, i: nat)
    requires Run(w, ss, acts) && Originations(acts) <= 32 && w.val(TTL_ONE_HOUR) == 3600.0
    requires k < |ss| && Present(ss[k], b) && i < |ss[k].nodes| && ss[k].nodes[i].self == b.dst
    ensures Tally(ss[k].log, Relay, b.id) <= 2 * (|ss[k].nodes| - 1) + 1
  {
    hide Run, TablesRoomy, Present, Tally;
    FewBundlesRoomy(w, ss, acts);
    FloodingBoundByNodes(w, ss, acts, k, b, i);
  }

  // ---- A full table ----

  /** Right after an acceptance the same frame is accepted again exactly when the table had no
      room to record the first time and the queue still has room for the bundle. */
  lemma AcceptedAgainIffUnrecorded(n: Node, t: real, f: seq<bv8>, w: World)
    requires NodeOk(n) && Receive(n, t, f, w).1.InCustody?
    ensures Parse(f).Accepted?
    ensures var n', b := Receive(n, t, f, w).0, Parse(f).bundle;
      Receive(n', t, f, w).1.InCustody? <==> !Recordable(n.records, b.id) && Free(n'.queue, n'.cap) >= b.size as real
  {
    hide Parse, Admit, Free, Load, IsAlive, Rejecting, TableOk, Carriable;
    var b, n' := Parse(f).bundle, Receive(n, t, f, w).0;
    TakenFacts(n, t, f, w);
    TransferKeepsTable(n.records, b.id, n.self, t, n.period);
    if Recordable(n.records, b.id) {
      var r := Record(b.id, n.self, t, t + n.period);
      var k :| 0 <= k < |n'.records| && n'.records[k] == r;
      assert Holds(n'.records, b.id, n.self);
    } else {
      assert n'.records == n.records;
    }
  }
}
