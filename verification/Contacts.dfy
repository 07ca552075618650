/** Contacts, their residual capacity and transmission timing, and the contact plan. */
module Contacts {
  import opened Bundles

  const PLAN_MAX: nat := 64
  const NEVER: real := 1000000000000000000000000000000.0  // 1e30, a rate-less contact's duration

  datatype ContactStatus = Up | Down | Uncertain

  datatype Contact = Contact(
    frm: NodeId, to: NodeId, tStart: real, tEnd: real, rate: real, owlt: real,
    conf: real, ber: real, status: ContactStatus, bytesUsed: real, reserved: real)

  predicate IsActive(c: Contact, t: real) { c.tStart <= t < c.tEnd && c.status == Up }

  predicate IsFuture(c: Contact, t: real) { t < c.tStart && c.status != Down }

  function Duration(c: Contact): real {
    var d := c.tEnd - c.tStart;
    if d > 0.0 then d else 0.0
  }

  /** Bytes carried in `time` at `rate`. */
  function Carried(rate: real, time: real): real { rate * time }

  function Capacity(c: Contact): real { Carried(c.rate, Duration(c)) }

  function CapRem(c: Contact, t: real): real {
    var left := c.tEnd - t;
    Carried(c.rate, if left < 0.0 then 0.0 else left) - c.bytesUsed
  }

  function CapUse(c: Contact, t: real): real { CapRem(c, t) - c.reserved }

  predicate IsFeasibleFor(c: Contact, size: real, t: real) { IsActive(c, t) && CapUse(c, t) >= size }

  function TxDuration(c: Contact, size: real): real { if c.rate > 0.0 then size / c.rate else NEVER }

  function EarliestStart(c: Contact, arrival: real): real { if arrival > c.tStart then arrival else c.tStart }

  function ArrivalAtReceiver(c: Contact, size: real, start: real): real { start + TxDuration(c, size) + c.owlt }

  // ---- Accounting ----

  function Drop(reserved: real, size: real): real { if reserved > size then reserved - size else 0.0 }

  function Reserve(c: Contact, size: real): Contact { c.(reserved := c.reserved + size) }

  function ReleaseReservation(c: Contact, size: real): Contact { c.(reserved := Drop(c.reserved, size)) }

  function Consume(c: Contact, size: real): Contact {
    c.(bytesUsed := c.bytesUsed + size, reserved := Drop(c.reserved, size))
  }

  /** Same window, rate, delay and endpoints: only the runtime counters may differ. */
  predicate SameContact(c: Contact, d: Contact) {
    d == c.(bytesUsed := d.bytesUsed, reserved := d.reserved)
  }

  predicate Accounted(c: Contact) { 0.0 <= c.reserved && 0.0 <= c.bytesUsed <= Capacity(c) }

  /** A transmission admitted by the feasibility check never oversubscribes the contact,
      whatever its rate: a positive usable capacity already forces a positive rate. */
  lemma ConsumeKeepsAccounts(c: Contact, size: real, t: real)
    requires Accounted(c) && 0.0 <= size && IsFeasibleFor(c, size, t)
    ensures Accounted(Consume(c, size)) && SameContact(c, Consume(c, size))
    ensures Consume(c, size).bytesUsed == c.bytesUsed + size
  {
    hide Carried;
    var left := c.tEnd - t;
    CarriedPositive(c.rate, left);
    CarriedOrder(c.rate, left, Duration(c));
  }

  /** Only a positive rate carries anything. */
  lemma CarriedPositive(rate: real, time: real)
    requires Carried(rate, time) >= 0.0 && time > 0.0
    ensures rate >= 0.0
  {
  }

  lemma CarriedOrder(rate: real, x: real, y: real)
    requires 0.0 <= rate && x <= y
    ensures Carried(rate, x) <= Carried(rate, y)
  {
    assert rate * (y - x) >= 0.0;
  }

  /** A reservation takes usable capacity once: releasing it gives it back, and sending what was
      reserved takes no more. */
  lemma ReservedOnce(c: Contact, size: real, t: real)
    requires 0.0 <= c.reserved && 0.0 <= size
    ensures var r := Reserve(c, size);
      && CapUse(r, t) == CapUse(c, t) - size
      && ReleaseReservation(r, size) == c
      && CapUse(Consume(r, size), t) == CapUse(r, t) && Consume(r, size) == c.(bytesUsed := c.bytesUsed + size)
    ensures var loose := CapUse(ReleaseReservation(c, size), t) - CapUse(c, t);
      loose == if c.reserved <= size then c.reserved else size
  {
    hide Carried;
  }

  /** One accounting event. A `Send` happens only where the sender's check admits it. */
  datatype Event = Reserving(size: real) | Releasing(size: real) | Send(size: real, t: real)

  function Apply(c: Contact, e: Event): Contact {
    match e
    case Reserving(size) => Reserve(c, size)
    case Releasing(size) => ReleaseReservation(c, size)
    case Send(size, t) => if IsFeasibleFor(c, size, t) then Consume(c, size) else c
  }

  function ApplyAll(c: Contact, es: seq<Event>): Contact {
    if es == [] then c else Apply(ApplyAll(c, es[..|es| - 1]), es[|es| - 1])
  }

  /** Bytes of the sends that passed the check, event by event. */
  function BytesSent(c: Contact, es: seq<Event>): real {
    if es == [] then 0.0
    else
      var before, e := es[..|es| - 1], es[|es| - 1];
      BytesSent(c, before)
      + if e.Send? && IsFeasibleFor(ApplyAll(c, before), e.size, e.t) then e.size else 0.0
  }

  /** Over every run of reservations, releases and checked sends from zeroed counters, the
      contact is never oversubscribed and its counter is the sum of what was sent. */
  lemma {:induction false} CapacityOverRuns(c: Contact, es: seq<Event>)
    requires c.bytesUsed == 0.0 && c.reserved == 0.0 && Capacity(c) >= 0.0
    requires forall i :: 0 <= i < |es| ==> es[i].size >= 0.0
    ensures SameContact(c, ApplyAll(c, es)) && Accounted(ApplyAll(c, es))
    ensures ApplyAll(c, es).bytesUsed == BytesSent(c, es)
    ensures c.tStart <= c.tEnd ==> BytesSent(c, es) <= c.rate * (c.tEnd - c.tStart)
    ensures c.tEnd <= c.tStart ==> BytesSent(c, es) <= 0.0
  {
    CapacityIs(c);
    hide Carried;
    if es == [] {
    } else {
      var before, e := es[..|es| - 1], es[|es| - 1];
      CapacityOverRuns(c, before);
      ApplyKeepsAccounts(ApplyAll(c, before), e);
    }
  }

  lemma CapacityIs(c: Contact)
    ensures Capacity(c) == if c.tStart <= c.tEnd then c.rate * (c.tEnd - c.tStart) else 0.0
  {
    assert c.rate * 0.0 == 0.0;
  }

  lemma ApplyKeepsAccounts(c: Contact, e: Event)
    requires Accounted(c) && e.size >= 0.0
    ensures Accounted(Apply(c, e)) && SameContact(c, Apply(c, e))
    ensures Apply(c, e).bytesUsed
            == c.bytesUsed + if e.Send? && IsFeasibleFor(c, e.size, e.t) then e.size else 0.0
  {
    hide Carried;
    if e.Send? && IsFeasibleFor(c, e.size, e.t) {
      ConsumeKeepsAccounts(c, e.size, e.t);
    }
  }

  // ---- The plan ----

  /** Indices of the contacts departing from `frm`, in plan order. */
  function Departures(cs: seq<Contact>, frm: NodeId): (js: seq<nat>)
    ensures |js| <= |cs|
  {
    if cs == [] then []
    else Departures(cs[..|cs| - 1], frm) + if cs[|cs| - 1].frm == frm then [|cs| - 1] else []
  }

  /** The scan finds exactly the contacts leaving `frm`, each once and in plan order. */
  lemma {:induction false} DeparturesExact(cs: seq<Contact>, frm: NodeId)
    ensures forall x :: 0 <= x < |Departures(cs, frm)| ==>
      Departures(cs, frm)[x] < |cs| && cs[Departures(cs, frm)[x]].frm == frm
    ensures forall j: nat :: j < |cs| && cs[j].frm == frm ==> j in Departures(cs, frm)
    ensures forall x, y :: 0 <= x < y < |Departures(cs, frm)| ==> Departures(cs, frm)[x] < Departures(cs, frm)[y]
  {
    if cs == [] {
    } else {
      var k := |cs| - 1;
      DeparturesExact(cs[..k], frm);
      forall j: nat | j < |cs| && cs[j].frm == frm ensures j in Departures(cs, frm) {
        if j == k {
          assert Departures(cs, frm)[|Departures(cs[..k], frm)|] == k;
        } else {
          assert cs[..k][j] == cs[j];
          assert j in Departures(cs[..k], frm);
        }
      }
    }
  }

  /** Scan of the plan for departures, keeping at most `outCap` of them. */
  method FromNode(cs: seq<Contact>, frm: NodeId, outCap: nat) returns (out: seq<nat>, n: nat)
    ensures n == |Departures(cs, frm)|
    ensures n <= outCap ==> out == Departures(cs, frm)
    ensures n > outCap ==> out == Departures(cs, frm)[..outCap]
  {
    out, n := [], 0;
    for i := 0 to |cs|
      invariant n == |Departures(cs[..i], frm)|
      invariant n <= outCap ==> out == Departures(cs[..i], frm)
      invariant n > outCap ==> out == Departures(cs[..i], frm)[..outCap]
    {
      assert cs[..i + 1][..i] == cs[..i];
      if cs[i].frm == frm {
        if n < outCap {
          out := out + [i];
        }
        n := n + 1;
      }
    }
    assert cs[..|cs|] == cs;
  }

  class ContactPlan {
    var contacts: array<Contact>
    var count: nat

    ghost predicate Valid()
      reads this
    {
      contacts.Length == PLAN_MAX && count <= PLAN_MAX
    }

    function Contents(): (cs: seq<Contact>)
      reads this, contacts
      requires Valid()
    {
      contacts[..count]
    }

    constructor ()
      ensures Valid() && fresh(contacts) && Contents() == []
    {
      contacts := new Contact[PLAN_MAX];
      count := 0;
    }

    method Add(c: Contact)
      requires Valid()
      modifies this`count, contacts
      ensures Valid() && contacts == old(contacts)
      ensures Contents() == if old(count) < 64 then old(Contents()) + [c] else old(Contents())
    {
      if count < PLAN_MAX {
        contacts[count] := c;
        count := count + 1;
      }
    }

    /** First contact from `frm` to `to`, if any. */
    method Get(frm: NodeId, to: NodeId) returns (found: bool, j: nat)
      requires Valid()
      ensures found <==> exists c :: c in Contents() && c.frm == frm && c.to == to
      ensures found ==> j < count && Contents()[j].frm == frm && Contents()[j].to == to
      ensures found ==> forall k :: 0 <= k < j ==> !(Contents()[k].frm == frm && Contents()[k].to == to)
    {
      j := 0;
      while j < count
        invariant j <= count
        invariant forall k :: 0 <= k < j ==> !(Contents()[k].frm == frm && Contents()[k].to == to)
      {
        if contacts[j].frm == frm && contacts[j].to == to {
          assert Contents()[j] in Contents();
          return true, j;
        }
        j := j + 1;
      }
      return false, 0;
    }

    method ReserveOn(j: nat, size: real)
      requires Valid() && j < count
      modifies contacts
      ensures Contents() == old(Contents())[j := Reserve(old(Contents())[j], size)]
    {
      contacts[j] := contacts[j].(reserved := contacts[j].reserved + size);
    }

    method ReleaseOn(j: nat, size: real)
      requires Valid() && j < count
      modifies contacts
      ensures Contents() == old(Contents())[j := ReleaseReservation(old(Contents())[j], size)]
    {
      var c := contacts[j];
      contacts[j] := if c.reserved > size then c.(reserved := c.reserved - size) else c.(reserved := 0.0);
    }

    method ConsumeOn(j: nat, size: real)
      requires Valid() && j < count
      modifies contacts
      ensures Contents() == old(Contents())[j := Consume(old(Contents())[j], size)]
    {
      var c := contacts[j];
      c := c.(bytesUsed := c.bytesUsed + size);
      contacts[j] := if c.reserved > size then c.(reserved := c.reserved - size) else c.(reserved := 0.0);
    }
  }
}
