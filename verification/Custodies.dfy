/** The custody table: acceptance, transfer, release and timeout of custody (a simplification of
    section 5.10 of RFC 5050). */
module Custodies {
  import opened Bundles
  import opened Queues

  const CUSTODY_MAX: nat := 32
  const TIMEOUT_DEFAULT: real := 1800.0

  datatype Record = Record(id: BundleId, custodian: NodeId, tAccept: real, timeout: real)

  /** First record of bundle `id`, -1 if there is none. */
  function IndexOf(s: seq<Record>, id: BundleId): (i: int)
    ensures -1 <= i < |s|
    ensures i >= 0 ==> s[i].id == id
    ensures forall k :: 0 <= k < (if i < 0 then |s| else i) ==> s[k].id != id
  {
    if s == [] then -1
    else
      var i := IndexOf(s[..|s| - 1], id);
      if i >= 0 then i else if s[|s| - 1].id == id then |s| - 1 else -1
  }

  predicate Holds(s: seq<Record>, id: BundleId, node: NodeId) {
    exists i :: 0 <= i < |s| && s[i].id == id && s[i].custodian == node
  }

  predicate Rejecting(policy: string) { "rej" <= policy }

  predicate Acceptable(s: seq<Record>, b: Bundle, node: NodeId, t: real, bufFree: real, policy: string,
                       val: FloatReading)
  {
    IsAlive(b, t, val) && bufFree >= b.size as real && !Rejecting(policy) && !Holds(s, b.id, node)
  }

  /** The table after custody of `id` passes to `node` at `t`; a full table records nothing. */
  function Transferred(s: seq<Record>, id: BundleId, node: NodeId, t: real, period: real): seq<Record> {
    var r, i := Record(id, node, t, t + period), IndexOf(s, id);
    if i >= 0 then s[i := r] else if |s| >= CUSTODY_MAX then s else s + [r]
  }

  predicate Recordable(s: seq<Record>, id: BundleId) { IndexOf(s, id) >= 0 || |s| < CUSTODY_MAX }

  function Released(s: seq<Record>, id: BundleId): seq<Record> {
    var i := IndexOf(s, id);
    if i < 0 then s else SwapRemove(s, i)
  }

  predicate TimedOut(s: seq<Record>, id: BundleId, t: real) {
    var i := IndexOf(s, id);
    i >= 0 && t >= s[i].timeout
  }

  /** The timeout sweep from index `i` on: a removal leaves the index where it is. */
  function SweptFrom(s: seq<Record>, i: nat, t: real): seq<Record>
    requires i <= |s|
    decreases |s| - i
  {
    if i == |s| then s
    else if TimedOut(s, s[i].id, t) then
      ReleasedLength(s, s[i].id);
      SweptFrom(Released(s, s[i].id), i, t)
    else SweptFrom(s, i + 1, t)
  }

  function Swept(s: seq<Record>, t: real): seq<Record> { SweptFrom(s, 0, t) }

  // ---- Table invariants ----

  /** At most one record per bundle and no more than the table holds. */
  ghost predicate TableOk(s: seq<Record>) {
    |s| <= CUSTODY_MAX && forall i, j :: 0 <= i < j < |s| ==> s[i].id != s[j].id
  }

  lemma ReleasedLength(s: seq<Record>, id: BundleId)
    ensures |Released(s, id)| <= |s|
    ensures IndexOf(s, id) >= 0 ==> |Released(s, id)| == |s| - 1
  {
  }

  lemma TransferKeepsTable(s: seq<Record>, id: BundleId, node: NodeId, t: real, period: real)
    requires TableOk(s)
    ensures TableOk(Transferred(s, id, node, t, period))
    ensures Recordable(s, id) ==> Record(id, node, t, t + period) in Transferred(s, id, node, t, period)
    ensures forall r :: r in s && r.id != id ==> r in Transferred(s, id, node, t, period)
    ensures forall r :: r in Transferred(s, id, node, t, period) ==> r in s || r == Record(id, node, t, t + period)
  {
    var r, i, out := Record(id, node, t, t + period), IndexOf(s, id), Transferred(s, id, node, t, period);
    if i >= 0 {
      assert out[i] == r;
      forall x | x in s && x.id != id ensures x in out {
        var k :| 0 <= k < |s| && s[k] == x;
        assert out[k] == x;
      }
    } else if |s| < CUSTODY_MAX {
      assert out[|s|] == r;
      forall x | x in s ensures x in out {
        var k :| 0 <= k < |s| && s[k] == x;
        assert out[k] == x;
      }
    }
  }

  lemma ReleaseKeepsTable(s: seq<Record>, id: BundleId)
    requires TableOk(s)
    ensures TableOk(Released(s, id))
    ensures forall r :: r in Released(s, id) <==> r in s && r.id != id
  {
    var i, n := IndexOf(s, id), |s| - 1;
    if i >= 0 {
      var out := Released(s, id);
      forall r | r in s && r.id != id ensures r in out {
        var k :| 0 <= k < |s| && s[k] == r;
        assert if k == n then out[i] == r else out[k] == r;
      }
      forall r | r in out ensures r in s && r.id != id {
        var k :| 0 <= k < |out| && out[k] == r;
        assert r == if k == i then s[n] else s[k];
      }
    }
  }

  // ---- The sweep ----

  /** The sweep removes exactly the records timed out at `t`: every other record stays, as
      often as it was there. */
  lemma SweepExact(s: seq<Record>, t: real)
    requires TableOk(s)
    ensures TableOk(Swept(s, t))
    ensures forall r: Record :: multiset(Swept(s, t))[r] == if t >= r.timeout then 0 else multiset(s)[r]
  {
    SweepFromExact(s, 0, t);
    forall r: Record | t >= r.timeout ensures multiset(Swept(s, t))[r] == 0 {
      assert r !in Swept(s, t);
    }
  }

  lemma {:induction false} SweepFromExact(s: seq<Record>, i: nat, t: real)
    requires TableOk(s) && i <= |s|
    requires forall k :: 0 <= k < i ==> t < s[k].timeout
    ensures TableOk(SweptFrom(s, i, t))
    ensures forall r :: r in SweptFrom(s, i, t) ==> t < r.timeout
    ensures forall r: Record :: t < r.timeout ==> multiset(SweptFrom(s, i, t))[r] == multiset(s)[r]
    decreases |s| - i
  {
    hide SwapRemove, TableOk, SweptFrom, Released;
    if i == |s| {
      SweepEnds(s, t);
    } else {
      SweepTurn(s, i, t);
      if t >= s[i].timeout {
        SweepFromExact(SwapRemove(s, i), i, t);
      } else {
        SweepFromExact(s, i + 1, t);
      }
    }
  }

  lemma SweepEnds(s: seq<Record>, t: real)
    ensures SweptFrom(s, |s|, t) == s
  {
  }

  /** One turn of the sweep: the record at `i` goes, and the last one takes its place, or stays. */
  lemma SweepTurn(s: seq<Record>, i: nat, t: real)
    requires TableOk(s) && i < |s|
    ensures |SwapRemove(s, i)| == |s| - 1 && TableOk(SwapRemove(s, i))
    ensures forall k :: 0 <= k < i ==> SwapRemove(s, i)[k] == s[k]
    ensures multiset(SwapRemove(s, i)) == multiset(s) - multiset{s[i]}
    ensures SweptFrom(s, i, t)
            == if t >= s[i].timeout then SweptFrom(SwapRemove(s, i), i, t) else SweptFrom(s, i + 1, t)
  {
    OnlyIndex(s, i);
    ReleaseKeepsTable(s, s[i].id);
    hide SwapRemove, TableOk, IndexOf;
    SwapRemoveMultiset(s, i);
    SwapRemovePrefix(s, i);
  }

  lemma OnlyIndex(s: seq<Record>, i: nat)
    requires TableOk(s) && i < |s|
    ensures IndexOf(s, s[i].id) == i
  {
  }

  lemma SwapRemovePrefix(s: seq<Record>, i: nat)
    requires i < |s|
    ensures |SwapRemove(s, i)| == |s| - 1 && SwapRemove(s, i)[..i] == s[..i]
    ensures forall k :: 0 <= k < i ==> SwapRemove(s, i)[k] == s[k]
  {
  }

  // ---- The table as it runs ----

  class CustodyManager {
    var records: array<Record>
    var count: nat
    var defaultTimeout: real

    ghost predicate Valid()
      reads this
    {
      records.Length == CUSTODY_MAX && count <= CUSTODY_MAX
    }

    function Contents(): (s: seq<Record>)
      reads this, records
      requires Valid()
    {
      records[..count]
    }

    constructor (period: real)
      ensures Valid() && fresh(records) && Contents() == []
      ensures defaultTimeout == if period > 0.0 then period else TIMEOUT_DEFAULT
    {
      records := new Record[CUSTODY_MAX](_ => Record(0, 0, 0.0, 0.0));
      count := 0;
      defaultTimeout := if period > 0.0 then period else TIMEOUT_DEFAULT;
    }

    /** Linear scan for the first record of a bundle. */
    method Find(id: BundleId) returns (i: int)
      requires Valid()
      ensures i == IndexOf(Contents(), id)
    {
      for k := 0 to count
        invariant IndexOf(records[..k], id) == -1
      {
        assert records[..k + 1][..k] == records[..k];
        if records[k].id == id {
          FirstFound(Contents(), id, k);
          return k;
        }
      }
      return -1;
    }

    method CanAccept(b: Bundle, node: NodeId, t: real, bufFree: real, policy: string, val: FloatReading)
      returns (ok: bool)
      requires Valid()
      ensures ok <==> Acceptable(Contents(), b, node, t, bufFree, policy, val)
    {
      if !IsAlive(b, t, val) { return false; }
      if bufFree < b.size as real { return false; }
      if |policy| >= 3 && policy[0] == 'r' && policy[1] == 'e' && policy[2] == 'j' { return false; }
      for i := 0 to count
        invariant !Holds(records[..i], b.id, node)
      {
        if records[i].id == b.id && records[i].custodian == node {
          assert Contents()[i] == records[i];
          return false;
        }
      }
      return true;
    }

    /** Record that custody passed to the bundle's current node; the bundle's custodian field
        follows only if the table had room. */
    method Transfer(b: Bundle, t: real) returns (b': Bundle)
      requires Valid()
      modifies this`count, records
      ensures Valid() && records == old(records)
      ensures Contents() == Transferred(old(Contents()), b.id, b.curr, t, defaultTimeout)
      ensures b' == if Recordable(old(Contents()), b.id) then b.(cust := b.curr) else b
    {
      var i := Find(b.id);
      if i >= 0 {
        records[i] := records[i].(custodian := b.curr, tAccept := t, timeout := t + defaultTimeout);
        return b.(cust := b.curr);
      }
      if count >= CUSTODY_MAX { return b; }
      records[count] := Record(b.id, b.curr, t, t + defaultTimeout);
      count := count + 1;
      return b.(cust := b.curr);
    }

    method Release(id: BundleId)
      requires Valid()
      modifies this`count, records
      ensures Valid() && records == old(records)
      ensures Contents() == Released(old(Contents()), id)
    {
      var i := Find(id);
      if i >= 0 {
        records[i] := records[count - 1];
        count := count - 1;
      }
    }

    method IsTimedOut(id: BundleId, t: real) returns (out: bool)
      requires Valid()
      ensures out <==> TimedOut(Contents(), id, t)
    {
      var i := Find(id);
      out := i >= 0 && t >= records[i].timeout;
    }

    /** Release every record whose timer has fired, removing while iterating. */
    method Sweep(t: real)
      requires Valid()
      modifies this`count, records
      ensures Valid() && records == old(records)
      ensures Contents() == Swept(old(Contents()), t)
    {
      hide SwapRemove, IndexOf;
      var i := 0;
      while i < count
        invariant Valid() && records == old(records) && i <= count
        invariant SweptFrom(Contents(), i, t) == Swept(old(Contents()), t)
        decreases count - i
      {
        var out := IsTimedOut(records[i].id, t);
        ghost var s := Contents();
        if out {
          ReleasedLength(s, s[i].id);
          Release(records[i].id);
        } else {
          i := i + 1;
        }
      }
    }
  }

  lemma {:induction false} FirstFound(s: seq<Record>, id: BundleId, k: nat)
    requires k < |s| && s[k].id == id && IndexOf(s[..k], id) == -1
    ensures IndexOf(s, id) == k
  {
    assert forall j :: 0 <= j < k ==> s[..k][j] == s[j];
  }
}
