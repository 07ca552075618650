/** The per-node bundle queue: class-aware admission with preemption, highest rank served first. */
module Queues {
  import opened Bundles

  const QUEUE_MAX: nat := 16
  const POLICY_LEN: nat := 7
  const COMMAND: U8 := 3

  // ---- What the operations compute, on the sequence of queued bundles ----

  function Load(s: seq<Bundle>): nat {
    if s == [] then 0 else Load(s[..|s| - 1]) + s[|s| - 1].size
  }

  function Free(s: seq<Bundle>, cap: real): real { cap - Load(s) as real }

  /** A class byte as the comparison reads it: a signed 8-bit number. */
  function Int8(c: U8): int { if c < 128 then c else c - 256 }

  /** The last bundle takes the place of the one removed. */
  function SwapRemove<T>(s: seq<T>, i: nat): seq<T>
    requires i < |s|
  {
    if i == |s| - 1 then s[..|s| - 1] else s[..|s| - 1][i := s[|s| - 1]]
  }

  /** Scan for the lowest class strictly below the newcomer's; -1 if there is none. */
  function Victim(s: seq<Bundle>, b: Bundle): (v: int)
    ensures -1 <= v < |s|
  {
    if s == [] then -1
    else
      var i := |s| - 1;
      var v := Victim(s[..i], b);
      var lowest := if v < 0 then Int8(b.cls) else Int8(s[v].cls);
      if Int8(s[i].cls) < Int8(b.cls) && Int8(s[i].cls) < lowest then i else v
  }

  datatype Admission = Admission(queue: seq<Bundle>, code: int)

  /** Admission of `b`: 0 appended, 1 appended after evicting a victim, -1 refused. */
  function Admit(s: seq<Bundle>, cap: real, b: Bundle): Admission {
    if |s| >= QUEUE_MAX then Admission(s, -1)
    else if Free(s, cap) >= b.size as real then Admission(s + [b], 0)
    else if Free(s, cap) > 0.1 * cap then Admission(s, -1)
    else
      var v := Victim(s, b);
      if v < 0 then Admission(s, -1)
      else
        var rest := SwapRemove(s, v);
        if Free(rest, cap) < b.size as real then Admission(rest, -1) else Admission(rest + [b], 1)
  }

  /** First bundle of highest rank at time `t`. */
  function Best(s: seq<Bundle>, t: real, val: FloatReading): (i: nat)
    requires s != []
    ensures i < |s|
  {
    if |s| == 1 then 0
    else
      var n := |s| - 1;
      var i := Best(s[..n], t, val);
      if Rank(s[n], t, val) > Rank(s[i], t, val) then n else i
  }

  predicate FirstWithId(s: seq<Bundle>, id: BundleId, i: int) {
    0 <= i < |s| && s[i].id == id && forall k :: 0 <= k < i ==> s[k].id != id
  }

  // ---- Swap-remove ----

  lemma SwapRemoveMultiset<T>(s: seq<T>, i: nat)
    requires i < |s|
    ensures multiset(SwapRemove(s, i)) == multiset(s) - multiset{s[i]}
  {
    assert s == s[..|s| - 1] + [s[|s| - 1]];
  }

  /** Only the last element moves, into the gap. */
  lemma SwapRemoveOrder<T>(s: seq<T>, i: nat)
    requires i < |s|
    ensures |SwapRemove(s, i)| == |s| - 1
    ensures forall k :: 0 <= k < |s| - 1 ==> SwapRemove(s, i)[k] == if k == i then s[|s| - 1] else s[k]
  {
  }

  lemma {:induction false} LoadUpdate(s: seq<Bundle>, i: nat, b: Bundle)
    requires i < |s|
    ensures Load(s[i := b]) == Load(s) - s[i].size + b.size
  {
    var n := |s| - 1;
    if i == n {
      assert s[i := b][..n] == s[..n];
    } else {
      LoadUpdate(s[..n], i, b);
      assert s[i := b][..n] == s[..n][i := b];
    }
  }

  lemma SwapRemoveLoad(s: seq<Bundle>, i: nat)
    requires i < |s|
    ensures Load(SwapRemove(s, i)) == Load(s) - s[i].size
  {
    var n := |s| - 1;
    if i < n {
      LoadUpdate(s[..n], i, s[n]);
    }
  }

  // ---- Admission ----

  /** The victim is the earliest bundle of the lowest class present, strictly below the
      newcomer's class; there is none exactly when every queued class is at least as high. */
  lemma {:induction false} VictimIsLowest(s: seq<Bundle>, b: Bundle)
    ensures var v := Victim(s, b);
      if v < 0 then forall k :: 0 <= k < |s| ==> Int8(s[k].cls) >= Int8(b.cls)
      else && Int8(s[v].cls) < Int8(b.cls)
           && (forall k :: 0 <= k < |s| ==> Int8(s[v].cls) <= Int8(s[k].cls))
           && (forall k :: 0 <= k < v ==> Int8(s[v].cls) < Int8(s[k].cls))
  {
    hide Int8;
    if s == [] {
    } else {
      VictimIsLowest(s[..|s| - 1], b);
    }
  }

  /** What one admission does to the queue's contents: at most one bundle leaves, of the lowest
      class present and strictly below the newcomer's; the newcomer is in exactly when the code
      is not -1; nothing else changes; and the capacity and slot bounds are kept. */
  lemma AdmitEffect(s: seq<Bundle>, cap: real, b: Bundle)
    requires Load(s) as real <= cap && |s| <= QUEUE_MAX
    ensures var r := Admit(s, cap, b); var v := Victim(s, b);
      && Load(r.queue) as real <= cap && |r.queue| <= QUEUE_MAX && -1 <= r.code <= 1
      && (r.code == 0 ==> multiset(r.queue) == multiset(s) + multiset{b})
      && (r.code == 1 ==> Evictable(s, b, v) && multiset(r.queue) == multiset(s) - multiset{s[v]} + multiset{b})
      && (r.code == -1 ==>
            r.queue == s || (Evictable(s, b, v) && multiset(r.queue) == multiset(s) - multiset{s[v]}))
  {
    var v := Victim(s, b);
    VictimIsLowest(s, b);
    hide Victim, Load, SwapRemove, Evictable;
    LoadAppend(s, b);
    if v >= 0 {
      SwapRemoveMultiset(s, v);
      SwapRemoveLoad(s, v);
      assert |SwapRemove(s, v)| == |s| - 1 by { SwapRemoveLength(s, v); }
      assert Evictable(s, b, v) by { VictimEvictable(s, b, v); }
      LoadAppend(SwapRemove(s, v), b);
    }
  }

  lemma LoadAppend(s: seq<Bundle>, b: Bundle)
    ensures Load(s + [b]) == Load(s) + b.size
  {
    assert (s + [b])[..|s|] == s;
  }

  lemma SwapRemoveLength<T>(s: seq<T>, i: nat)
    requires i < |s|
    ensures |SwapRemove(s, i)| == |s| - 1
  {
  }

  lemma VictimEvictable(s: seq<Bundle>, b: Bundle, v: int)
    requires 0 <= v < |s| && Int8(s[v].cls) < Int8(b.cls)
    requires forall k :: 0 <= k < |s| ==> Int8(s[v].cls) <= Int8(s[k].cls)
    ensures Evictable(s, b, v)
  {
  }

  /** A bundle the newcomer may displace: lowest class present, strictly below its own. */
  ghost predicate Evictable(s: seq<Bundle>, b: Bundle, v: int) {
    0 <= v < |s| && Int8(s[v].cls) < Int8(b.cls) && forall k :: 0 <= k < |s| ==> Int8(s[v].cls) <= Int8(s[k].cls)
  }

  /** The bundle an admission pushes out, if any, read off its outcome. */
  function Displaced(s: seq<Bundle>, cap: real, b: Bundle): seq<Bundle> {
    var r, v := Admit(s, cap, b), Victim(s, b);
    if v >= 0 && (r.code == 1 || |r.queue| < |s|) then [s[v]] else []
  }

  /** The four outcomes of an admission. */
  lemma AdmitOutcomes(s: seq<Bundle>, cap: real, b: Bundle)
    ensures var r, v := Admit(s, cap, b), Victim(s, b);
      && (r.code == 0 || r.code == 1 || r.code == -1)
      && (r.code == 0 <==> |s| < QUEUE_MAX && Free(s, cap) >= b.size as real) && (r.code == 0 ==> r.queue == s + [b])
      && (r.code == 1 ==> v >= 0 && r.queue == SwapRemove(s, v) + [b])
      && (r.code == -1 ==> r.queue == s || (v >= 0 && r.queue == SwapRemove(s, v)))
  {
    hide Victim, SwapRemove, Free;
  }

  /** An admission trades the displaced bundle, if any, for the newcomer, if admitted. */
  lemma DisplacedBalance(s: seq<Bundle>, cap: real, b: Bundle)
    ensures var r := Admit(s, cap, b);
      multiset(r.queue) + multiset(Displaced(s, cap, b))
      == multiset(s) + (if r.code >= 0 then multiset{b} else multiset{})
    ensures |s| < QUEUE_MAX && Free(s, cap) >= b.size as real ==> Displaced(s, cap, b) == []
    ensures |s| >= QUEUE_MAX ==> Displaced(s, cap, b) == []
  {
    AdmitOutcomes(s, cap, b);
    FullRefuses(s, cap, b);
    hide Victim, SwapRemove, Free, Admit;
    Appended(s, b);
    var v := Victim(s, b);
    if v >= 0 {
      SwapRemoveMultiset(s, v);
      SwapRemoveLength(s, v);
      Traded(s, SwapRemove(s, v), s[v], b);
    }
  }

  lemma FullRefuses(s: seq<Bundle>, cap: real, b: Bundle)
    ensures |s| >= QUEUE_MAX ==> Admit(s, cap, b) == Admission(s, -1)
  {
    hide Victim, SwapRemove, Free;
  }

  lemma Appended(s: seq<Bundle>, b: Bundle)
    ensures multiset(s + [b]) == multiset(s) + multiset{b} && multiset(s) + multiset([]) == multiset(s)
  {
  }

  lemma Traded(s: seq<Bundle>, rest: seq<Bundle>, x: Bundle, b: Bundle)
    requires x in s && multiset(rest) == multiset(s) - multiset{x}
    ensures multiset(rest) + multiset([x]) == multiset(s)
    ensures multiset(rest + [b]) + multiset([x]) == multiset(s) + multiset{b}
  {
    assert multiset(rest) + multiset([x]) == multiset(s);
    Appended(rest, b);
  }

  /** A bundle is pushed out only under pressure, and then always: a slot is free, the newcomer's
      bytes are not, a tenth of the bytes at most is free, and some queued class is lower. */
  lemma EvictsIffPressed(s: seq<Bundle>, cap: real, b: Bundle)
    requires |s| <= 16
    ensures Displaced(s, cap, b) != []
            <==> && |s| < 16 && Load(s) as real + b.size as real > cap && 10.0 * (cap - Load(s) as real) <= cap
                 && exists k :: 0 <= k < |s| && Int8(s[k].cls) < Int8(b.cls)
    ensures Admit(s, cap, b).code == 1
            <==> Displaced(s, cap, b) != []
                 && Load(s) as real - Displaced(s, cap, b)[0].size as real + b.size as real <= cap
  {
    VictimIsLowest(s, b);
    hide Victim, Load, Int8, SwapRemove;
    var v := Victim(s, b);
    if v >= 0 {
      SwapRemoveLoad(s, v);
      SwapRemoveLength(s, v);
    }
  }

  /** Nothing is lost and the newcomer is in exactly when there is a slot and room for its bytes. */
  lemma LosslessIffRoom(s: seq<Bundle>, cap: real, b: Bundle)
    requires Load(s) as real <= cap && |s| <= QUEUE_MAX
    ensures multiset(Admit(s, cap, b).queue) == multiset(s) + multiset{b}
            <==> |s| < 16 && Load(s) as real + b.size as real <= cap
  {
    AdmitOutcomes(s, cap, b);
    hide Victim, Load, SwapRemove, Admit;
    Appended(s, b);
    var v := Victim(s, b);
    assert |multiset(s) + multiset{b}| == |s| + 1;
    if v >= 0 {
      SwapRemoveLength(s, v);
    }
  }

  /** A queue that has room takes the newcomer without evicting anything. */
  lemma RoomMeansAppend(s: seq<Bundle>, cap: real, b: Bundle)
    requires |s| < QUEUE_MAX && Free(s, cap) >= b.size as real
    ensures Admit(s, cap, b) == Admission(s + [b], 0)
  {
  }

  function AdmitAll(s: seq<Bundle>, cap: real, bs: seq<Bundle>): seq<Bundle> {
    if bs == [] then s else Admit(AdmitAll(s, cap, bs[..|bs| - 1]), cap, bs[|bs| - 1]).queue
  }

  /** Class bytes above COMMAND that are not negative as signed bytes: no generator makes them,
      but a decoder passes them on. */
  predicate Overranks(b: Bundle) { COMMAND < b.cls < 128 }

  /** Over any run of admissions the bounds hold throughout, and a COMMAND bundle that is in the
      queue stays there as long as no newcomer's class byte outranks it. */
  lemma {:induction false} CommandsStay(s: seq<Bundle>, cap: real, bs: seq<Bundle>, c: Bundle)
    requires Load(s) as real <= cap && |s| <= QUEUE_MAX && c.cls == COMMAND
    requires forall i :: 0 <= i < |bs| ==> !Overranks(bs[i])
    ensures Load(AdmitAll(s, cap, bs)) as real <= cap && |AdmitAll(s, cap, bs)| <= QUEUE_MAX
    ensures multiset(AdmitAll(s, cap, bs))[c] >= multiset(s)[c]
  {
    if bs == [] {
    } else {
      var b := bs[|bs| - 1];
      CommandsStay(s, cap, bs[..|bs| - 1], c);
      AdmitEffect(AdmitAll(s, cap, bs[..|bs| - 1]), cap, b);
    }
  }

  /** Admitting `b` pushes COMMAND bundle `c` out. */
  ghost predicate Ousts(s: seq<Bundle>, cap: real, b: Bundle, c: Bundle) {
    && Load(s) as real <= cap && |s| <= QUEUE_MAX && c.cls == COMMAND
    && multiset(Admit(s, cap, b).queue)[c] < multiset(s)[c]
  }

  /** Some queue gives up a COMMAND bundle to `b` exactly when its class byte is 4 to 127. */
  lemma CommandOustedIffOutranked(b: Bundle)
    requires b.size > 0
    ensures (exists s, cap, c :: Ousts(s, cap, b, c)) <==> Overranks(b)
  {
    hide Ousts;
    if Overranks(b) {
      OutrankedGoes(b);
    } else {
      forall s, cap, c | Ousts(s, cap, b, c) ensures false {
        OnlyOutranked(s, cap, b, c);
      }
    }
  }

  lemma OnlyOutranked(s: seq<Bundle>, cap: real, b: Bundle, c: Bundle)
    requires Ousts(s, cap, b, c)
    ensures Overranks(b)
  {
    AdmitEffect(s, cap, b);
    hide Admit, Victim, Load;
  }

  /** A full one-bundle queue gives up its COMMAND bundle. */
  lemma OutrankedGoes(b: Bundle)
    requires Overranks(b) && b.size > 0
    ensures Ousts([Sample(0, 0, 0).(cls := COMMAND)], 45.0, b, Sample(0, 0, 0).(cls := COMMAND))
  {
    var c := Sample(0, 0, 0).(cls := COMMAND);
    assert [c][..0] == [] && Load([c]) == 45 && Victim([], b) == -1 && Victim([c], b) == 0;
    assert SwapRemove([c], 0) == [];
    assert multiset([c])[c] == 1 && c !in Admit([c], 45.0, b).queue;
  }

  // ---- Service order ----

  lemma {:induction false} BestIsHighest(s: seq<Bundle>, t: real, val: FloatReading)
    requires s != []
    ensures forall k :: 0 <= k < |s| ==> Rank(s[Best(s, t, val)], t, val) >= Rank(s[k], t, val)
    ensures forall k :: 0 <= k < Best(s, t, val) ==> Rank(s[Best(s, t, val)], t, val) > Rank(s[k], t, val)
  {
    hide Rank;
    if |s| == 1 {
    } else {
      var n, i := |s| - 1, Best(s, t, val);
      BestIsHighest(s[..n], t, val);
      forall k | 0 <= k < n
        ensures Rank(s[i], t, val) >= Rank(s[k], t, val) && (k < i ==> Rank(s[i], t, val) > Rank(s[k], t, val))
      {
        assert s[..n][k] == s[k];
      }
    }
  }

  // ---- What the ranks mean for the order ----

  /** `b` and `c` have the same priority, and this node has custody of both or of neither. */
  predicate Equals(b: Bundle, c: Bundle) {
    b.prio == c.prio && (b.cust == b.curr && b.cust != 0) == (c.cust == c.curr && c.cust != 0)
  }

  /** `b` may be served before `c`: it expires no later, or within a second. */
  predicate NoLater(b: Bundle, c: Bundle, t: real, val: FloatReading) {
    val(b.tGen) + val(b.ttl) <= val(c.tGen) + val(c.ttl) || val(b.tGen) + val(b.ttl) <= t + 1.0
  }

  lemma RankedNoLater(b: Bundle, c: Bundle, t: real, val: FloatReading)
    requires Rank(b, t, val) >= Rank(c, t, val) && Equals(b, c)
    ensures NoLater(b, c, t, val)
  {
    hide Rank;
    EqualsByDeadline(c, b, t, val);
  }

  /** The bundle served expires no later than any equal one, or within a second. */
  lemma ServedByDeadline(s: seq<Bundle>, t: real, val: FloatReading)
    requires s != []
    ensures forall k :: 0 <= k < |s| && Equals(s[Best(s, t, val)], s[k]) ==> NoLater(s[Best(s, t, val)], s[k], t, val)
  {
    hide Rank, Best, Equals, NoLater;
    BestIsHighest(s, t, val);
    forall k | 0 <= k < |s| && Equals(s[Best(s, t, val)], s[k]) ensures NoLater(s[Best(s, t, val)], s[k], t, val) {
      RankedNoLater(s[Best(s, t, val)], s[k], t, val);
    }
  }

  /** A newcomer admitted to a queue with room waits behind every bundle it does not outrank. */
  lemma NewcomerWaits(s: seq<Bundle>, cap: real, b: Bundle, t: real, val: FloatReading)
    requires s != [] && Admit(s, cap, b).code == 0
    ensures var s' := Admit(s, cap, b).queue;
      && s' != []
      && s'[Best(s', t, val)]
         == if Rank(b, t, val) > Rank(s[Best(s, t, val)], t, val) then b else s[Best(s, t, val)]
  {
    hide Rank, Victim, Free;
    assert (s + [b])[..|s|] == s;
  }

  /** Bundles in the order repeated pops at a fixed time serve them. */
  function Drain(s: seq<Bundle>, t: real, val: FloatReading): seq<Bundle>
    decreases |s|
  {
    if s == [] then []
    else
      var i := Best(s, t, val);
      [s[i]] + Drain(SwapRemove(s, i), t, val)
  }

  lemma {:induction false} DrainServesAll(s: seq<Bundle>, t: real, val: FloatReading)
    ensures multiset(Drain(s, t, val)) == multiset(s)
    decreases |s|
  {
    hide Rank, SwapRemove;
    if s == [] {
    } else {
      var i := Best(s, t, val);
      SwapRemoveLength(s, i);
      DrainServesAll(SwapRemove(s, i), t, val);
      SwapRemoveMultiset(s, i);
    }
  }

  /** Draining serves every queued bundle exactly once, in non-increasing rank. */
  lemma {:induction false} DrainOrder(s: seq<Bundle>, t: real, val: FloatReading)
    ensures multiset(Drain(s, t, val)) == multiset(s)
    ensures forall i, j :: 0 <= i < j < |Drain(s, t, val)| ==>
      Rank(Drain(s, t, val)[i], t, val) >= Rank(Drain(s, t, val)[j], t, val)
    decreases |s|
  {
    hide Rank, SwapRemove;
    DrainServesAll(s, t, val);
    if s == [] {
    } else {
      var first := s[Best(s, t, val)];
      var rest := SwapRemove(s, Best(s, t, val));
      var tail := Drain(rest, t, val);
      SwapRemoveLength(s, Best(s, t, val));
      DrainOrder(rest, t, val);
      assert Drain(s, t, val) == [first] + tail;
      forall j | 0 <= j < |tail| ensures Rank(first, t, val) >= Rank(tail[j], t, val) {
        assert tail[j] == Drain(s, t, val)[j + 1];
        HighestServedFirst(s, t, val, tail[j]);
      }
    }
  }

  /** Draining serves equals by deadline. */
  lemma DrainByDeadline(s: seq<Bundle>, t: real, val: FloatReading, i: nat, j: nat)
    requires i < j < |Drain(s, t, val)| && Equals(Drain(s, t, val)[i], Drain(s, t, val)[j])
    ensures NoLater(Drain(s, t, val)[i], Drain(s, t, val)[j], t, val)
  {
    hide Rank, Drain, Equals, NoLater;
    DrainOrder(s, t, val);
    RankedNoLater(Drain(s, t, val)[i], Drain(s, t, val)[j], t, val);
  }

  lemma HighestServedFirst(s: seq<Bundle>, t: real, val: FloatReading, b: Bundle)
    requires s != [] && b in Drain(s, t, val)
    ensures Rank(s[Best(s, t, val)], t, val) >= Rank(b, t, val)
  {
    hide Rank, Best, Drain;
    DrainServesAll(s, t, val);
    BestIsHighest(s, t, val);
    assert b in multiset(Drain(s, t, val));
    var k :| 0 <= k < |s| && s[k] == b;
  }

  // ---- The queue as it runs ----

  class NodeQueue {
    var slots: array<Bundle>
    var count: nat
    var bufCap: real
    var owner: NodeId
    var policy: string

    ghost predicate Valid()
      reads this
    {
      slots.Length == QUEUE_MAX && count <= QUEUE_MAX
    }

    function Contents(): (s: seq<Bundle>)
      reads this, slots
      requires Valid()
    {
      slots[..count]
    }

    constructor (owner: NodeId, bufCap: real, policy: string, blank: Bundle)
      ensures Valid() && fresh(slots) && Contents() == []
      ensures this.owner == owner && this.bufCap == bufCap
      ensures this.policy == if |policy| <= 7 then policy else policy[..7]
    {
      slots := new Bundle[QUEUE_MAX](_ => blank);
      count := 0;
      this.owner, this.bufCap := owner, bufCap;
      this.policy := if |policy| <= POLICY_LEN then policy else policy[..POLICY_LEN];
    }

    method QueueLoad() returns (load: nat)
      requires Valid()
      ensures load == Load(Contents())
    {
      load := 0;
      for i := 0 to count
        invariant load == Load(slots[..i])
      {
        assert slots[..i + 1][..i] == slots[..i];
        load := load + slots[i].size;
      }
    }

    method QueueFree() returns (free: real)
      requires Valid()
      ensures free == Free(Contents(), bufCap)
    {
      var load := QueueLoad();
      free := bufCap - load as real;
    }

    method FindVictim(incoming: Bundle) returns (v: int)
      requires Valid()
      ensures v == Victim(Contents(), incoming)
    {
      v := -1;
      var lowest := Int8(incoming.cls);
      for i := 0 to count
        invariant v == Victim(slots[..i], incoming)
        invariant lowest == if v < 0 then Int8(incoming.cls) else Int8(slots[v].cls)
      {
        assert slots[..i + 1][..i] == slots[..i];
        var c := Int8(slots[i].cls);
        if c < Int8(incoming.cls) && c < lowest {
          lowest, v := c, i;
        }
      }
    }

    method Enqueue(b: Bundle) returns (code: int)
      requires Valid()
      modifies this`count, slots
      ensures Valid() && slots == old(slots)
      ensures Admission(Contents(), code) == Admit(old(Contents()), bufCap, b)
    {
      hide Victim, SwapRemove, Load;
      if count >= QUEUE_MAX { return -1; }
      var free := QueueFree();
      if free >= b.size as real {
        Append(b);
        return 0;
      }
      if free > 0.1 * bufCap { return -1; }
      var victim := FindVictim(b);
      if victim < 0 { return -1; }
      RemoveAt(victim);
      free := QueueFree();
      if free < b.size as real { return -1; }
      Append(b);
      return 1;
    }

    method Append(b: Bundle)
      requires Valid() && count < QUEUE_MAX
      modifies this`count, slots
      ensures Valid() && slots == old(slots) && Contents() == old(Contents()) + [b]
    {
      slots[count] := b;
      count := count + 1;
    }

    /** The last bundle fills the gap. */
    method RemoveAt(i: nat)
      requires Valid() && i < count
      modifies this`count, slots
      ensures Valid() && slots == old(slots) && Contents() == SwapRemove(old(Contents()), i)
      ensures count == old(count) - 1
    {
      slots[i] := slots[count - 1];
      count := count - 1;
    }

    /** Index of the highest-ranked bundle, the first one on ties. */
    method PeekNext(t: real, val: FloatReading) returns (best: nat)
      requires Valid() && count > 0
      ensures best < count && best == Best(Contents(), t, val)
    {
      hide Rank;
      best := 0;
      var bestRank := Rank(slots[0], t, val);
      for i := 1 to count
        invariant best < i && best == Best(slots[..i], t, val) && bestRank == Rank(slots[best], t, val)
      {
        assert slots[..i + 1][..i] == slots[..i];
        var r := Rank(slots[i], t, val);
        if r > bestRank {
          bestRank, best := r, i;
        }
      }
    }

    method PopNext(t: real, val: FloatReading) returns (found: bool, b: Bundle)
      requires Valid()
      modifies this`count, slots
      ensures Valid() && slots == old(slots)
      ensures found <==> old(Contents()) != []
      ensures !found ==> Contents() == []
      ensures found ==> var s := old(Contents()); var i := Best(s, t, val);
        b == s[i] && Contents() == SwapRemove(s, i)
      // The highest rank, the first one queued on ties; among equals the one with the least time left.
      ensures found ==> forall c :: c in old(Contents()) ==>
        Rank(b, t, val) >= Rank(c, t, val) && (Equals(b, c) ==> NoLater(b, c, t, val))
    {
      hide Rank, Equals, NoLater;
      if count == 0 { return false, slots[0]; }
      BestIsHighest(Contents(), t, val);
      ServedByDeadline(Contents(), t, val);
      var best := PeekNext(t, val);
      found, b := true, slots[best];
      RemoveAt(best);
    }

    /** First bundle with the given identifier, removed if present. */
    method Dequeue(id: BundleId) returns (found: bool)
      requires Valid()
      modifies this`count, slots
      ensures Valid() && slots == old(slots)
      ensures found <==> exists b :: b in old(Contents()) && b.id == id
      ensures !found ==> Contents() == old(Contents())
      ensures found ==> exists i :: FirstWithId(old(Contents()), id, i) && Contents() == SwapRemove(old(Contents()), i)
    {
      for i := 0 to count
        invariant forall k :: 0 <= k < i ==> slots[k].id != id
        invariant Contents() == old(Contents()) && count == old(count)
      {
        if slots[i].id == id {
          ghost var s := Contents();
          assert s[i] in s && FirstWithId(s, id, i);
          RemoveAt(i);
          return true;
        }
      }
      return false;
    }
  }
}
