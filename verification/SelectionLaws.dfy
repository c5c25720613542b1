/** The selection rule in plain numbers. */
module SelectionLaws {
  import opened ClaimSelection

  // The rule in plain numbers. An eligible row outside the priority slice has a
  // lower priority than any in it, or the same and no lower watermark; outside
  // the reserve as well, no lower watermark than any in the reserve; outside
  // the leading slice, no higher one than any in it.
  lemma DirectMeans(p: Pick, eligible: set<Candidate>, lagging: nat, leading: nat, a: Candidate, b: Candidate)
    requires Direct(p, eligible, lagging, leading) && b in eligible
    ensures a in p.prio && b !in p.prio ==> b.priority < a.priority || (b.priority == a.priority && a.at <= b.at)
    ensures a in p.fair && b !in p.prio && b !in p.fair ==> a.at <= b.at
    ensures a in p.lead && b !in p.lead ==> b.at <= a.at
    ensures a in Picked(p) ==> a in eligible
    ensures !(a in p.prio && a in p.fair)
  {
    assert Before(ByPriority, a, b) || !(a in p.prio && b !in p.prio);
    assert Before(ByWatermark, a, b) || !(a in p.fair && b !in p.prio && b !in p.fair);
    assert Before(ByNewest, a, b) || !(a in p.lead && b !in p.lead);
  }

  // How many each slice takes. The reserve is a quarter of the lagging budget,
  // rounded down, but one at least from a budget of two.
  lemma SliceSizes(p: Pick, eligible: set<Candidate>, lagging: nat, leading: nat)
    requires Direct(p, eligible, lagging, leading)
    ensures var reserve := if lagging < 2 then 0 else if lagging < 8 then 1 else lagging / 4;
            && |p.prio| == (if |eligible| < lagging - reserve then |eligible| else lagging - reserve)
            && |p.fair| == (if |eligible| - |p.prio| < reserve then |eligible| - |p.prio| else reserve)
            && |p.lead| == (if |eligible| < leading then |eligible| else leading)
  {
    assert |eligible - p.prio| == |eligible| - |p.prio|;
  }

  // With budget for all on either frontier, all are picked.
  lemma BudgetForAll(p: Pick, eligible: set<Candidate>, lagging: nat, leading: nat)
    requires Direct(p, eligible, lagging, leading) && (|eligible| <= lagging || |eligible| <= leading)
    ensures Picked(p) == eligible
  {
    SliceSizes(p, eligible, lagging, leading);
    assert p.prio !! p.fair && p.prio + p.fair <= eligible && p.lead <= eligible;
    hide Direct;
    if |eligible| <= leading {
      SubsetSize(p.lead, eligible);
    } else {
      assert |p.prio + p.fair| == |p.prio| + |p.fair|;
      SubsetSize(p.prio + p.fair, eligible);
    }
  }
}
