/** What contacts carry over whole runs of the network: every counter is the bytes really sent,
    and no contact is ever oversubscribed. */
module Airtime {
  import opened Bundles
  import opened Contacts
  import opened Codec
  import opened Queues
  import opened Custodies
  import opened NodeModel
  import opened Network
  import opened Provenance

  /** Bytes of the frames node `i` sent over its contact `j`. */
  function SentOn(log: seq<Entry>, i: nat, j: nat): nat {
    if log == [] then 0
    else
      var e := log[|log| - 1];
      SentOn(log[..|log| - 1], i, j) + if e.Relayed? && e.at == i && e.contact == j then e.len else 0
  }

  /** `n` is `n0` but for queue, custody table and counters; its contacts have carried what the
      log says. */
  ghost predicate MeteredNode(log: seq<Entry>, i: nat, n0: Node, n: Node) {
    && n.self == n0.self && |n.plan| == |n0.plan|
    && forall j :: 0 <= j < |n.plan| ==>
         SameContact(n0.plan[j], n.plan[j]) && n.plan[j].bytesUsed == SentOn(log, i, j) as real
  }

  ghost predicate Metered(s0: Net, s: Net) {
    |s.nodes| == |s0.nodes| && forall i :: 0 <= i < |s.nodes| ==> MeteredNode(s.log, i, s0.nodes[i], s.nodes[i])
  }

  lemma {:induction false} SentConcat(log: seq<Entry>, more: seq<Entry>, i: nat, j: nat)
    ensures SentOn(log + more, i, j) == SentOn(log, i, j) + SentOn(more, i, j)
  {
    if more == [] {
      assert log + more == log;
    } else {
      assert (log + more)[..|log + more| - 1] == log + more[..|more| - 1];
      SentConcat(log, more[..|more| - 1], i, j);
    }
  }

  lemma {:induction false} NothingSent(more: seq<Entry>, i: nat, j: nat)
    requires forall e :: e in more ==> !e.Relayed? || e.at != i
    ensures SentOn(more, i, j) == 0
  {
    if more == [] {
    } else {
      assert more[|more| - 1] in more;
      NothingSent(more[..|more| - 1], i, j);
    }
  }

  /** A step changes contacts only by sending: one contact, by the length of the frame. */
  lemma StepPlan(w: World, s: Net, s': Net, a: Action)
    requires NodesOk(s) && Step(w, s, s', a) && |s.log| <= |s'.log| && a.i < |s.nodes| && |s'.nodes| == |s.nodes|
    ensures var p, p' := s.nodes[a.i].plan, s'.nodes[a.i].plan;
      if a.Turn? && a.ev.Sent? then
        && a.ev.contact < |p| && p' == p[a.ev.contact := Consume(p[a.ev.contact], |a.ev.frame| as real)]
        && Added(s, s') == [Relayed(a.i, a.ev.contact, a.ev.b, |a.ev.frame|)]
      else p' == p && forall e :: e in Added(s, s') ==> !e.Relayed?
  {
    hide NodeOk, Generate, Receive, TickStep, Reaching, Displaced, Consume, NewBundle, Admit;
    var n := s.nodes[a.i];
    if a.Originate? {
      GenerateKeepsPlan(n, a.dst, a.cls, a.msg, a.stamp);
    } else if a.Hear? {
      ReceiveKeepsPlan(n, a.t, a.f, w);
    } else {
      TickPlan(n, a.t, a.n, a.ev, w);
    }
  }

  lemma GenerateKeepsPlan(n: Node, dst: NodeId, cls: U8, msg: seq<bv8>, now: bv32)
    ensures Generate(n, dst, cls, msg, now).0.plan == n.plan
  {
    hide Admit, NewBundle, NextCount;
  }

  lemma ReceiveKeepsPlan(n: Node, t: real, f: seq<bv8>, w: World)
    ensures Receive(n, t, f, w).0.plan == n.plan
  {
    hide Parse, Admit, Acceptable, Transferred, Released, Free, TakenOver;
  }

  lemma TickPlan(n: Node, t: real, n': Node, ev: Ticked, w: World)
    requires NodeOk(n) && TickStep(n, t, n', ev, w)
    ensures if ev.Sent? then
              && ev.contact < |n.plan| && |ev.frame| == ev.b.size
              && n'.plan == n.plan[ev.contact := Consume(n.plan[ev.contact], ev.b.size as real)]
            else n'.plan == n.plan
  {
    TickConserves(n, t, n', ev, w);
    hide NodeOk, Parse, Admit, FirstHop, GoesBack, Swept, Behead, Head, IsAlive, IsFeasibleFor, Consume, Released,
      Codec.Frame;
  }

  lemma QuietKeepsMeter(log: seq<Entry>, more: seq<Entry>, i: nat, n0: Node, n: Node, n': Node)
    requires MeteredNode(log, i, n0, n) && n'.plan == n.plan && n'.self == n.self
    requires forall e :: e in more ==> !e.Relayed? || e.at != i
    ensures MeteredNode(log + more, i, n0, n')
  {
    hide SentOn, SameContact;
    forall j: nat | j < |n'.plan| ensures n'.plan[j].bytesUsed == SentOn(log + more, i, j) as real {
      SentConcat(log, more, i, j);
      NothingSent(more, i, j);
    }
  }

  lemma SendingKeepsMeter(log: seq<Entry>, e: Entry, i: nat, n0: Node, n: Node, n': Node)
    requires MeteredNode(log, i, n0, n) && n'.self == n.self && e.Relayed? && e.at == i && e.contact < |n.plan|
    requires n'.plan == n.plan[e.contact := Consume(n.plan[e.contact], e.len as real)]
    ensures MeteredNode(log + [e], i, n0, n')
  {
    hide SentOn, SameContact, Consume;
    forall j: nat | j < |n'.plan|
      ensures SameContact(n0.plan[j], n'.plan[j]) && n'.plan[j].bytesUsed == SentOn(log + [e], i, j) as real
    {
      SentConcat(log, [e], i, j);
      OneSent(e, i, j);
      if j == e.contact {
        ConsumeSame(n0.plan[j], n.plan[j], e.len as real);
      }
    }
  }

  lemma StepMetered(w: World, s0: Net, s: Net, s': Net, a: Action)
    requires NodesOk(s) && Metered(s0, s) && Step(w, s, s', a)
    ensures Metered(s0, s')
  {
    hide Step, NodesOk, MeteredNode, Consume;
    StepNode(w, s, s', a);
    StepBalance(w, s, s', a);
    StepPlan(w, s, s', a);
    AddedHere(w, s, s', a);
    var more := Added(s, s');
    forall i | 0 <= i < |s'.nodes| ensures MeteredNode(s'.log, i, s0.nodes[i], s'.nodes[i]) {
      if i == a.i && a.Turn? && a.ev.Sent? {
        SendingKeepsMeter(s.log, more[0], i, s0.nodes[i], s.nodes[i], s'.nodes[i]);
      } else {
        QuietKeepsMeter(s.log, more, i, s0.nodes[i], s.nodes[i], s'.nodes[i]);
      }
    }
  }

  lemma ConsumeSame(c0: Contact, c: Contact, size: real)
    requires SameContact(c0, c)
    ensures SameContact(c0, Consume(c, size)) && Consume(c, size).bytesUsed == c.bytesUsed + size
  {
  }

  lemma OneSent(e: Entry, i: nat, j: nat)
    ensures SentOn([e], i, j) == if e.Relayed? && e.at == i && e.contact == j then e.len else 0
  {
    assert [e][..0] == [];
  }

  lemma {:induction false} RunMetered(w: World, ss: seq<Net>, acts: seq<Action>, k: nat)
    requires Run(w, ss, acts) && k < |ss|
    ensures Metered(ss[0], ss[k])
  {
    hide Step, Metered;
    if k == 0 {
      StartMetered(ss[0]);
    } else {
      RunMetered(w, ss, acts, k - 1);
      RunKeeps(w, ss, acts, k - 1);
      assert Step(w, ss[k - 1], ss[k - 1 + 1], acts[k - 1]);
      StepMetered(w, ss[0], ss[k - 1], ss[k], acts[k - 1]);
    }
  }

  lemma StartMetered(s: Net)
    requires Start(s)
    ensures Metered(s, s)
  {
    forall i | 0 <= i < |s.nodes| ensures MeteredNode(s.log, i, s.nodes[i], s.nodes[i]) {
      assert FreshNode(s.nodes[i]);
    }
  }

  /** A contact that has carried only what it has room for. */
  lemma MeteredContact(log: seq<Entry>, i: nat, j: nat, n0: Node, n: Node)
    requires MeteredNode(log, i, n0, n) && NodeOk(n) && j < |n0.plan|
    ensures j < |n.plan| && SameContact(n0.plan[j], n.plan[j]) && n.plan[j].bytesUsed == SentOn(log, i, j) as real
    ensures 0.0 <= n.plan[j].reserved && SentOn(log, i, j) as real <= Capacity(n0.plan[j])
  {
    hide Carried, SentOn, TableOk, Load, Carriable;
    assert Accounted(n.plan[j]);
  }

  /** Capacity over every run: a contact's byte counter is the total length of the frames its
      node sent over it, and that total never exceeds the contact's capacity. */
  lemma RunCapacity(w: World, ss: seq<Net>, acts: seq<Action>, k: nat, i: nat, j: nat)
    requires Run(w, ss, acts) && k < |ss| && i < |ss[0].nodes| && j < |ss[0].nodes[i].plan|
    ensures i < |ss[k].nodes| && j < |ss[k].nodes[i].plan|
    ensures var c := ss[k].nodes[i].plan[j];
      && SameContact(ss[0].nodes[i].plan[j], c) && c.bytesUsed == SentOn(ss[k].log, i, j) as real
      && 0.0 <= c.reserved && SentOn(ss[k].log, i, j) as real <= Capacity(ss[0].nodes[i].plan[j])
  {
    hide Run, MeteredNode, NodeOk, SentOn, Capacity, SameContact;
    RunMetered(w, ss, acts, k);
    RunKeeps(w, ss, acts, k);
    MeteredContact(ss[k].log, i, j, ss[0].nodes[i], ss[k].nodes[i]);
  }

  // ---- Own contacts only ----

  ghost predicate OverOwn(s0: Net, e: Entry) {
    e.Relayed? ==>
      && e.at < |s0.nodes| && e.contact < |s0.nodes[e.at].plan|
      && s0.nodes[e.at].plan[e.contact].frm == s0.nodes[e.at].self
  }

  ghost predicate OwnContacts(s0: Net, s: Net) { forall e :: e in s.log ==> OverOwn(s0, e) }

  lemma AddedOverOwn(w: World, s0: Net, s: Net, s': Net, a: Action, e: Entry)
    requires NodesOk(s) && Metered(s0, s) && Step(w, s, s', a) && |s.log| <= |s'.log| && e in Added(s, s')
    ensures OverOwn(s0, e)
  {
    hide Receive, Admit, TickStep, Generate, NewBundle, Displaced, Reaching, NodeOk, SentOn;
    if e.Relayed? {
      assert a.Turn? && a.ev.Sent?;
      var n := s.nodes[a.i];
      SendsOverOwn(n, a.t, a.n, a.ev, w);
      assert MeteredNode(s.log, a.i, s0.nodes[a.i], n);
    }
  }

  lemma StepOwnContacts(w: World, s0: Net, s: Net, s': Net, a: Action)
    requires NodesOk(s) && Metered(s0, s) && OwnContacts(s0, s) && Step(w, s, s', a)
    ensures OwnContacts(s0, s')
  {
    hide Step, Metered, OverOwn, NodesOk;
    StepBalance(w, s, s', a);
    forall e | e in s'.log ensures OverOwn(s0, e) {
      if e !in s.log {
        assert e in Added(s, s');
        AddedOverOwn(w, s0, s, s', a, e);
      }
    }
  }

  lemma NothingSentYet(s: Net)
    requires s.log == []
    ensures OwnContacts(s, s)
  {
  }

  lemma {:induction false} RunOwnContacts(w: World, ss: seq<Net>, acts: seq<Action>, k: nat)
    requires Run(w, ss, acts) && k < |ss|
    ensures OwnContacts(ss[0], ss[k])
  {
    hide Step, Metered, OwnContacts, NodesOk, Conserved, Traced, Minted;
    if k == 0 {
      assert ss[0].log == [] && OwnContacts(ss[0], ss[0]) by { NothingSentYet(ss[0]); }
    } else {
      RunOwnContacts(w, ss, acts, k - 1);
      RunMetered(w, ss, acts, k - 1);
      RunKeeps(w, ss, acts, k - 1);
      assert Step(w, ss[k - 1], ss[k - 1 + 1], acts[k - 1]);
      StepOwnContacts(w, ss[0], ss[k - 1], ss[k], acts[k - 1]);
    }
  }

  /** Over every run a node sends over, and charges, only contacts that leave from it. */
  lemma SendsFromHere(w: World, ss: seq<Net>, acts: seq<Action>, k: nat, e: Entry)
    requires Run(w, ss, acts) && k < |ss| && e in ss[k].log && e.Relayed?
    ensures e.at < |ss[0].nodes| && e.contact < |ss[0].nodes[e.at].plan|
    ensures ss[0].nodes[e.at].plan[e.contact].frm == ss[0].nodes[e.at].self
  {
    hide Run;
    RunOwnContacts(w, ss, acts, k);
    assert OverOwn(ss[0], e);
  }

  /** A contact that does not leave from the node that plans with it is never charged. */
  lemma OthersUncharged(w: World, ss: seq<Net>, acts: seq<Action>, k: nat, i: nat, j: nat)
    requires Run(w, ss, acts) && k < |ss| && i < |ss[0].nodes| && j < |ss[0].nodes[i].plan|
    requires ss[0].nodes[i].plan[j].frm != ss[0].nodes[i].self
    ensures i < |ss[k].nodes| && j < |ss[k].nodes[i].plan| && ss[k].nodes[i].plan[j].bytesUsed == 0.0
  {
    hide Run, SameContact, Capacity;
    RunCapacity(w, ss, acts, k, i, j);
    RunOwnContacts(w, ss, acts, k);
    ForeignUnsent(ss[0], ss[k].log, i, j);
  }

  lemma {:induction false} ForeignUnsent(s0: Net, log: seq<Entry>, i: nat, j: nat)
    requires forall e :: e in log ==> OverOwn(s0, e)
    requires i < |s0.nodes| && j < |s0.nodes[i].plan| && s0.nodes[i].plan[j].frm != s0.nodes[i].self
    ensures SentOn(log, i, j) == 0
  {
    if log == [] {
    } else {
      assert OverOwn(s0, log[|log| - 1]);
      ForeignUnsent(s0, log[..|log| - 1], i, j);
    }
  }
}
