/**
 * What holds in every run of creations, removals and crashes: allocated blocks never overlap, and
 * no derived address is given out twice.
 */
module CreationSafety {
  import opened Prelude
  import opened LockModel
  import opened LockInvariant
  import opened LockScan
  import Ports = PortBlocks
  import Mac = MacAddresses
  import opened CreationModel
  import opened CreationSteps

  /** However creations, removals and crashes interleave, two machines of different names whose
      blocks were allocated, saved or in flight, have blocks that do not overlap. */
  lemma AllocatedBlocksApart(ws: seq<Site>, vs: seq<Event>, i: nat, m: string, n: string, a: Saved, b: Saved)
    requires SiteRun(ws, vs) && i < |ws| && m != n
    requires HasBlock(ws[i], m, a) && HasBlock(ws[i], n, b) && a.automatic && b.automatic
    ensures !Ports.Overlap(a.base, b.base)
  {
    SiteRunKeepsInv(ws, vs, i);
    assert Apart(ws[i]);
    BlocksDisjoint(ws[i], m, n, a, b);
  }

  /** Nor do they share an address that was derived for a NIC of each, whoever asked for what. */
  lemma DerivedAddressesApart(ws: seq<Site>, vs: seq<Event>, i: nat, m: string, n: string, a: Saved, b: Saved)
    requires SiteRun(ws, vs) && i < |ws| && m != n && HasBlock(ws[i], m, a) && HasBlock(ws[i], n, b)
    ensures a.macs.derived !! b.macs.derived
  {
    SiteRunKeepsInv(ws, vs, i);
    assert Apart(ws[i]);
    BlocksDisjoint(ws[i], m, n, a, b);
  }

  lemma BlocksDisjoint(w: Site, m: string, n: string, a: Saved, b: Saved)
    requires Apart(w) && m != n && HasBlock(w, m, a) && HasBlock(w, n, b)
    ensures Disjoint(a, b)
  {
    hide Standing, Disjoint;
    DisjointSymmetric(a, b);
  }

  /** A name has one block: what is in flight under a name is what is, or will be, saved. */
  lemma OneBlockPerName(ws: seq<Site>, vs: seq<Event>, i: nat, n: string, a: Saved, b: Saved)
    requires SiteRun(ws, vs) && i < |ws| && HasBlock(ws[i], n, a) && HasBlock(ws[i], n, b)
    ensures a == b
  {
    SiteRunKeepsInv(ws, vs, i);
    var w := ws[i];
    hide LocksOk, JobsOk, Apart, ChoiceOk, Standing;
    forall c, d | Flying(w, c) && Flying(w, d) && w.jobs[c].name == n && w.jobs[d].name == n
      ensures c == d
    {
      OneFlies(w, c, d);
    }
  }

  // ---- The searches of a creation are ones the site lets it make ---------------------------------

  /** The bases that the search of the allocator goes through are ones it may pick. */
  lemma SearchMayPick(job: Job, probed: seq<int>, usedBases: seq<int>, i: nat)
    requires job.asked.None? && job.phase.Counting? && job.phase.left == []
    requires forall b :: b in usedBases <==> b in job.phase.used + ReservedBases(job.phase.found)
    requires i < |probed| && Ports.LeastFree(Ports.DEFAULT_PORT_BASE, usedBases, probed[0])
    requires Ports.ProbedInOrder(probed, usedBases)
    ensures 0 <= probed[i] && MayPick(job, probed[i])
  {
    if i > 0 {
      Ports.ProbesAvoidUsed(probed, usedBases, 0, i);
    }
    assert Ports.Avoids(probed[i], usedBases);
    hide Ports.Overlap;
  }

  /** The addresses that an assignment gave to NICs without one. */
  function Derived(macs: seq<Option<string>>, full: seq<Option<string>>): set<string>
    requires |full| == |macs|
  {
    set i | 0 <= i < |macs| && !Mac.HasMac(macs[i]) && Mac.HasMac(full[i]) :: full[i].value
  }

  /** What the search for unused addresses assigns is what it may assign. */
  lemma SearchMayAssign(phase: Phase, macs: seq<Option<string>>, derive: Mac.Derive)
    requires phase.Addressing? && phase.left == [] && Mac.GivesText(derive)
    requires Mac.Result(macs, phase.taken + ReservedMacs(phase.found), derive).Some?
    ensures var full := Mac.Result(macs, phase.taken + ReservedMacs(phase.found), derive).value;
            && MayAssign(phase, Macs(Mac.Addresses(macs), Derived(macs, full)))
            && Mac.Addresses(full) == Mac.Addresses(macs) + Derived(macs, full)
  {
    var taken := phase.taken + ReservedMacs(phase.found);
    Mac.AssignedApart(macs, taken, derive, |macs|);
    var full := Mac.Result(macs, taken, derive).value;
    forall a | a in Mac.Addresses(macs) + Derived(macs, full)
      ensures a in Mac.Addresses(full)
    {
      var i :| 0 <= i < |macs| && full[i] == Some(a) && Mac.HasMac(full[i]);
      assert full[i] in full;
    }
    forall a | a in Mac.Addresses(full)
      ensures a in Mac.Addresses(macs) + Derived(macs, full)
    {
      var i :| 0 <= i < |full| && full[i] == Some(a) && Mac.HasMac(full[i]);
      assert macs[i] in macs;
    }
  }
}
