/** The bounded Pareto frontier the search keeps per node. */
module CgrFrontier {
  import opened CgrModel

  const FRONTIER_MAX: nat := 8

  datatype Verdict = Dominated | Inserted | Overflow

  predicate Covered(sigs: seq<Sig>, sig: Sig) { exists i :: 0 <= i < |sigs| && Dominates(sigs[i], sig) }

  predicate Antichain(sigs: seq<Sig>) {
    forall i, j :: 0 <= i < |sigs| && 0 <= j < |sigs| && i != j ==> !Dominates(sigs[i], sigs[j])
  }

  /** The entries `sig` does not dominate, in order. */
  function Survivors(sigs: seq<Sig>, sig: Sig): (kept: seq<Sig>)
    ensures |kept| <= |sigs|
  {
    if sigs == [] then []
    else
      var last := sigs[|sigs| - 1];
      Survivors(sigs[..|sigs| - 1], sig) + if Dominates(sig, last) then [] else [last]
  }

  /** Offer a signature: dropped if an entry dominates it, otherwise it replaces the entries it
      dominates. A ninth entry would be written past the array; that is reported as an overflow
      together with the nine signatures that do not fit. */
  method Offer(sigs: seq<Sig>, sig: Sig) returns (out: seq<Sig>, verdict: Verdict)
    requires |sigs| <= FRONTIER_MAX
    ensures verdict == Dominated <==> Covered(sigs, sig)
    ensures verdict == Dominated ==> out == sigs
    ensures verdict != Dominated ==> out == Survivors(sigs, sig) + [sig]
    ensures verdict == Overflow <==> verdict != Dominated && |out| > FRONTIER_MAX
  {
    for i := 0 to |sigs|
      invariant forall k :: 0 <= k < i ==> !Dominates(sigs[k], sig)
    {
      if sigs[i].tArrive <= sig.tArrive && sigs[i].conf >= sig.conf && sigs[i].margin >= sig.margin {
        return sigs, Dominated;
      }
    }
    out := [];
    for i := 0 to |sigs|
      invariant out == Survivors(sigs[..i], sig)
    {
      assert sigs[..i + 1][..i] == sigs[..i];
      if !(sig.tArrive <= sigs[i].tArrive && sig.conf >= sigs[i].conf && sig.margin >= sigs[i].margin) {
        out := out + [sigs[i]];
      }
    }
    assert sigs[..|sigs|] == sigs;
    out := out + [sig];
    verdict := if |out| > FRONTIER_MAX then Overflow else Inserted;
  }

  // ---- What the survivors are ----

  lemma {:induction false} SurvivorsExact(sigs: seq<Sig>, sig: Sig)
    ensures forall s :: s in Survivors(sigs, sig) <==> s in sigs && !Dominates(sig, s)
  {
    if sigs == [] {
    } else {
      var pre, last := sigs[..|sigs| - 1], sigs[|sigs| - 1];
      SurvivorsExact(pre, sig);
      assert sigs == pre + [last];
    }
  }

  lemma {:induction false} SurvivorsAntichain(sigs: seq<Sig>, sig: Sig)
    requires Antichain(sigs)
    ensures Antichain(Survivors(sigs, sig))
  {
    if sigs == [] {
    } else {
      var pre, last := sigs[..|sigs| - 1], sigs[|sigs| - 1];
      SurvivorsAntichain(pre, sig);
      SurvivorsExact(pre, sig);
      var kept := Survivors(pre, sig);
      forall i | 0 <= i < |kept|
        ensures !Dominates(kept[i], last) && !Dominates(last, kept[i])
      {
        assert kept[i] in pre;
        var k :| 0 <= k < |pre| && pre[k] == kept[i];
        assert sigs[k] == kept[i] && sigs[|pre|] == last;
      }
    }
  }

  lemma InsertAntichain(sigs: seq<Sig>, sig: Sig)
    requires Antichain(sigs) && !Covered(sigs, sig)
    ensures Antichain(Survivors(sigs, sig) + [sig])
  {
    SurvivorsAntichain(sigs, sig);
    SurvivorsExact(sigs, sig);
    var kept := Survivors(sigs, sig);
    forall i | 0 <= i < |kept|
      ensures !Dominates(kept[i], sig) && !Dominates(sig, kept[i])
    {
      assert kept[i] in sigs;
    }
  }

  /** Inserting never uncovers: what an entry covered is still covered. */
  lemma InsertKeepsCover(sigs: seq<Sig>, sig: Sig, s: Sig)
    requires Covered(sigs, s)
    ensures Covered(Survivors(sigs, sig) + [sig], s)
  {
    SurvivorsExact(sigs, sig);
    var kept := Survivors(sigs, sig);
    var i :| 0 <= i < |sigs| && Dominates(sigs[i], s);
    if Dominates(sig, sigs[i]) {
      assert (kept + [sig])[|kept|] == sig;
    } else {
      assert sigs[i] in kept;
      var k :| 0 <= k < |kept| && kept[k] == sigs[i];
      assert (kept + [sig])[k] == sigs[i];
    }
  }

  // ---- The frontier as a whole ----

  /** The frontier after a sequence of offers, with no bound on its size. */
  function Frontier(offered: seq<Sig>): seq<Sig> {
    if offered == [] then []
    else
      var before, sig := Frontier(offered[..|offered| - 1]), offered[|offered| - 1];
      if Covered(before, sig) then before else Survivors(before, sig) + [sig]
  }

  /** While it fits, a node's frontier is exactly the set of non-dominated signatures among
      all ever offered there, without duplicates, and covers every offer. */
  lemma {:induction false} FrontierIsParetoSet(offered: seq<Sig>)
    ensures Antichain(Frontier(offered))
    ensures forall s :: s in offered ==> Covered(Frontier(offered), s)
    ensures forall s :: s in Frontier(offered) <==>
      s in offered && forall o :: o in offered && Dominates(o, s) ==> o == s
  {
    if offered == [] {
    } else {
      var pre, sig := offered[..|offered| - 1], offered[|offered| - 1];
      FrontierIsParetoSet(pre);
      var before, after := Frontier(pre), Frontier(offered);
      assert offered == pre + [sig];
      SurvivorsExact(before, sig);
      if !Covered(before, sig) {
        InsertAntichain(before, sig);
        assert after[|after| - 1] == sig;
      }
      forall s | s in offered ensures Covered(after, s) {
        if s in pre && !Covered(before, sig) {
          InsertKeepsCover(before, sig, s);
        }
      }
      forall s | s in after ensures s in offered {}
      MaximalOffers(after, s => s in offered);
    }
  }

  /** An antichain of offers that covers every offer is the set of maximal offers. */
  lemma MaximalOffers(sigs: seq<Sig>, offered: Sig -> bool)
    requires Antichain(sigs)
    requires forall s :: s in sigs ==> offered(s)
    requires forall s :: offered(s) ==> Covered(sigs, s)
    ensures forall s :: s in sigs <==> offered(s) && forall o :: offered(o) && Dominates(o, s) ==> o == s
  {
    forall s, o | s in sigs && offered(o) && Dominates(o, s) ensures o == s {
      var k :| 0 <= k < |sigs| && sigs[k] == s;
      var i :| 0 <= i < |sigs| && Dominates(sigs[i], o);
      assert Dominates(sigs[i], sigs[k]);
    }
    forall s | offered(s) && forall o :: offered(o) && Dominates(o, s) ==> o == s ensures s in sigs {
      var i :| 0 <= i < |sigs| && Dominates(sigs[i], s);
      assert sigs[i] in sigs;
    }
  }
}
