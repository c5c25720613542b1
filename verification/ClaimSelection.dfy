/** Which streams a claim picks: a priority slice, a fairness reserve and a
    leading frontier. Postgres states the rule over every eligible row; SQLite
    computes it from three bounded reads. Ties are never fixed by either, so
    `ORDER BY ... LIMIT k` is any valid top-k. */
module ClaimSelection {
  import opened Seqs

  datatype Candidate = Candidate(stream: string, at: int, priority: int)

  datatype Order = ByPriority | ByWatermark | ByNewest

  predicate Before(o: Order, a: Candidate, b: Candidate) {
    match o
    case ByPriority => a.priority > b.priority || (a.priority == b.priority && a.at <= b.at)
    case ByWatermark => a.at <= b.at
    case ByNewest => a.at >= b.at
  }

  // `sel` is a valid answer to `ORDER BY o LIMIT k` over `from`.
  ghost predicate Top(o: Order, sel: set<Candidate>, from: set<Candidate>, k: nat) {
    && sel <= from
    && |sel| == (if |from| < k then |from| else k)
    && forall a, b {:trigger Before(o, a, b)} :: a in sel && b in from - sel ==> Before(o, a, b)
  }

  // The fairness reserve carved off the lagging budget.
  function Fair(lagging: nat): (fair: nat)
    ensures fair <= lagging
    ensures lagging >= 2 ==> fair >= 1
  {
    if lagging < 2 then 0 else if lagging / 4 < 1 then 1 else lagging / 4
  }

  datatype Pick = Pick(prio: set<Candidate>, fair: set<Candidate>, lead: set<Candidate>)

  function Picked(p: Pick): set<Candidate> {
    p.prio + p.fair + p.lead
  }

  // The rule as the Postgres query states it, over the whole eligible set.
  ghost predicate Direct(p: Pick, eligible: set<Candidate>, lagging: nat, leading: nat) {
    && Top(ByPriority, p.prio, eligible, lagging - Fair(lagging))
    && Top(ByWatermark, p.fair, eligible - p.prio, Fair(lagging))
    && Top(ByNewest, p.lead, eligible, leading)
  }

  // ---------------------------------------------------------------- refinement

  lemma Spare(a: set<Candidate>, b: set<Candidate>) returns (c: Candidate)
    requires |a| < |b|
    ensures c in b && c !in a
  {
    if b <= a {
      SubsetSize(b, a);
      assert false;
    }
    c :| c in b && c !in a;
  }

  lemma SubsetSize(a: set<Candidate>, b: set<Candidate>)
    requires a <= b
    ensures |a| <= |b|
    ensures |a| == |b| ==> a == b
  {
    assert b == a + (b - a);
  }

  // A bounded read of `k` rows is enough to answer a smaller question of `j`
  // rows asked of any superset of it, with `out` rows excluded beforehand.
  lemma BoundedReadSuffices(o: Order, eligible: set<Candidate>, out: set<Candidate>, read: set<Candidate>,
                            seen: set<Candidate>, sel: set<Candidate>, k: nat, j: nat)
    requires Top(o, read, eligible, k)
    requires read <= seen <= eligible && out <= seen
    requires j + |out| <= k
    requires Top(o, sel, seen - out, j)
    ensures Top(o, sel, eligible - out, j)
  {
    SubsetSize(read, eligible);
    SubsetSize(seen - out, eligible - out);
    if read == eligible {
      assert seen == eligible;
    } else {
      SubsetSize(read - out, seen - out);
      assert |read - out| >= j by {
        assert read == (read - out) + (read * out);
        SubsetSize(read * out, out);
      }
      forall a, b | a in sel && b in (eligible - out) - sel
        ensures Before(o, a, b)
      {
        if b !in seen && a !in read {
          assert |sel - {a}| == |sel| - 1;
          var r := Spare(sel - {a}, read - out);
          assert r != a && r in (seen - out) - sel;
          assert Before(o, a, r) && Before(o, r, b);
        }
      }
    }
  }

  // SQLite's three reads, unioned and re-split, give a valid outcome of the
  // direct rule, whatever way each read and each sort breaks its ties.
  lemma BoundedReadsRefineDirect(eligible: set<Candidate>, r1: set<Candidate>, r2: set<Candidate>, r3: set<Candidate>,
                                 p: Pick, lagging: nat, leading: nat)
    requires Top(ByPriority, r1, eligible, lagging)
    requires Top(ByWatermark, r2, eligible, lagging)
    requires Top(ByNewest, r3, eligible, leading)
    requires Direct(p, r1 + r2 + r3, lagging, leading)
    ensures Direct(p, eligible, lagging, leading)
  {
    var seen := r1 + r2 + r3;
    assert seen - {} == seen && eligible - {} == eligible;
    BoundedReadSuffices(ByPriority, eligible, {}, r1, seen, p.prio, lagging, lagging - Fair(lagging));
    BoundedReadSuffices(ByWatermark, eligible, p.prio, r2, seen, p.fair, lagging, Fair(lagging));
    BoundedReadSuffices(ByNewest, eligible, {}, r3, seen, p.lead, leading, leading);
  }

  lemma PickedWithinBudget(p: Pick, eligible: set<Candidate>, lagging: nat, leading: nat)
    requires Direct(p, eligible, lagging, leading)
    ensures Picked(p) <= eligible
    ensures |Picked(p)| <= lagging + leading
    ensures lagging + leading > 0 && eligible != {} ==> Picked(p) != {}
  {
    assert |p.prio + p.fair| <= |p.prio| + |p.fair|;
    if eligible != {} {
      assert |eligible| > 0 by {
        var c :| c in eligible;
      }
    }
  }

  // When a stream misses the cut, the fairness reserve served another one at
  // or behind its watermark.
  lemma MissedMeansBehind(p: Pick, eligible: set<Candidate>, lagging: nat, leading: nat, x: Candidate)
    returns (y: Candidate)
    requires Direct(p, eligible, lagging, leading) && lagging >= 2
    requires x in eligible && x !in Picked(p)
    ensures y in p.fair && y in eligible && y != x && y.at <= x.at
  {
    assert x in (eligible - p.prio) - p.fair;
    if p.fair == {} {
      assert false;
    }
    y :| y in p.fair;
    assert Before(ByWatermark, y, x);
  }

  // ---------------------------------------------------------------- the code

  function Members(cs: seq<Candidate>): set<Candidate> {
    set c | c in cs
  }

  ghost predicate Sorted(o: Order, xs: seq<Candidate>) {
    Distinct(xs) && forall i, j :: 0 <= i < j < |xs| ==> Before(o, xs[i], xs[j])
  }

  ghost predicate Distinct(xs: seq<Candidate>) {
    forall i, j :: 0 <= i < j < |xs| ==> xs[i] != xs[j]
  }

  lemma Snoc(o: Order, xs: seq<Candidate>, x: Candidate)
    requires Sorted(o, xs) && x !in xs && forall a :: a in xs ==> Before(o, a, x)
    ensures Sorted(o, xs + [x]) && Members(xs + [x]) == Members(xs) + {x}
  {
  }

  // `ORDER BY o LIMIT k`, or a sort when `k` covers the set: repeatedly take
  // some first row of what is left.
  method Select(o: Order, from: set<Candidate>, k: nat) returns (sel: seq<Candidate>)
    ensures Sorted(o, sel)
    ensures Top(o, Members(sel), from, k)
  {
    sel := [];
    var rest := from;
    while |sel| < k && rest != {}
      invariant |sel| <= k && |sel| + |rest| == |from|
      invariant Members(sel) <= from && rest == from - Members(sel)
      invariant Sorted(o, sel)
      invariant forall a, b :: a in sel && b in rest ==> Before(o, a, b)
      decreases |rest|
    {
      FirstExists(o, rest);
      var first :| first in rest && forall c :: c in rest ==> Before(o, first, c);
      assert first !in Members(sel);
      Snoc(o, sel, first);
      sel := sel + [first];
      rest := rest - {first};
    }
    DistinctCount(sel);
  }

  lemma {:induction false} FirstExists(o: Order, cs: set<Candidate>)
    requires cs != {}
    ensures exists first :: first in cs && forall c :: c in cs ==> Before(o, first, c)
  {
    var x :| x in cs;
    var rest := cs - {x};
    if rest == {} {
      assert cs == {x};
      assert forall c :: c in cs ==> Before(o, x, c);
    } else {
      FirstExists(o, rest);
      var f :| f in rest && forall c :: c in rest ==> Before(o, f, c);
      var first := if Before(o, x, f) then x else f;
      assert forall c :: c in cs ==> c == x || c in rest;
      assert forall c :: c in cs ==> Before(o, first, c);
    }
  }

  lemma {:induction false} DistinctCount(xs: seq<Candidate>)
    requires Distinct(xs)
    ensures |Members(xs)| == |xs|
  {
    if xs != [] {
      var n := |xs| - 1;
      DistinctCount(xs[..n]);
      assert Members(xs) == Members(xs[..n]) + {xs[n]};
    } else {
      assert Members(xs) == {};
    }
  }

  lemma TakeIsTop(o: Order, xs: seq<Candidate>, k: nat)
    requires Sorted(o, xs)
    ensures Sorted(o, Take(xs, k)) && Top(o, Members(Take(xs, k)), Members(xs), k)
  {
    DistinctCount(xs);
    DistinctCount(Take(xs, k));
  }

  // `.filter(c => !out.has(c))` keeps a sorted list sorted.
  method Without(o: Order, xs: seq<Candidate>, out: set<Candidate>) returns (ys: seq<Candidate>)
    requires Sorted(o, xs)
    ensures Sorted(o, ys) && Members(ys) == Members(xs) - out
  {
    ys := [];
    for i := 0 to |xs|
      invariant Sorted(o, ys) && Members(ys) == Members(xs[..i]) - out
    {
      assert Members(xs[..i + 1]) == Members(xs[..i]) + {xs[i]};
      if xs[i] !in out {
        forall a | a in ys ensures a != xs[i] && Before(o, a, xs[i]) {
          assert a in Members(ys);
          assert a in xs[..i];
        }
        Snoc(o, ys, xs[i]);
        ys := ys + [xs[i]];
      }
    }
    assert xs[..|xs|] == xs;
  }

  // Sort, drop what is already picked, keep the first `k`.
  method Slice(o: Order, seen: set<Candidate>, picked: set<Candidate>, k: nat) returns (slice: seq<Candidate>)
    ensures Sorted(o, slice) && Top(o, Members(slice), seen - picked, k)
  {
    var sorted := Select(o, seen, |seen|);
    SubsetSize(Members(sorted), seen);
    var unpicked := Without(o, sorted, picked);
    TakeIsTop(o, unpicked, k);
    slice := Take(unpicked, k);
  }

  lemma JoinDistinct(xs: seq<Candidate>, ys: seq<Candidate>)
    requires Distinct(xs) && Distinct(ys) && Members(xs) !! Members(ys)
    ensures Distinct(xs + ys) && Members(xs + ys) == Members(xs) + Members(ys)
  {
    forall i, j | 0 <= i < |xs| && 0 <= j < |ys| ensures xs[i] != ys[j] {
      assert xs[i] in Members(xs) && ys[j] in Members(ys);
    }
  }

  // The lagging half: a priority slice, then the fairness reserve.
  method Lagging(seen: set<Candidate>, lagging: nat)
    returns (lag: seq<Candidate>, ghost prio: set<Candidate>, ghost fair: set<Candidate>)
    ensures Top(ByPriority, prio, seen, lagging - Fair(lagging))
    ensures Top(ByWatermark, fair, seen - prio, Fair(lagging))
    ensures Distinct(lag) && Members(lag) == prio + fair
  {
    var prioritySlice := Slice(ByPriority, seen, {}, lagging - Fair(lagging));
    var picked := Members(prioritySlice);
    var fairSlice := Slice(ByWatermark, seen, picked, Fair(lagging));
    prio, fair := picked, Members(fairSlice);
    JoinDistinct(prioritySlice, fairSlice);
    lag := prioritySlice + fairSlice;
    assert seen - {} == seen;
  }

  // The leading half, with what is already picked dropped.
  method Leading(seen: set<Candidate>, leading: nat, picked: set<Candidate>)
    returns (lead: seq<Candidate>, ghost newest: set<Candidate>)
    ensures Top(ByNewest, newest, seen, leading)
    ensures Distinct(lead) && Members(lead) == newest - picked
  {
    var slice := Slice(ByNewest, seen, {}, leading);
    newest := Members(slice);
    lead := Without(ByNewest, slice, picked);
    assert seen - {} == seen;
  }

  method Split(seen: set<Candidate>, lagging: nat, leading: nat)
    returns (lag: seq<Candidate>, lead: seq<Candidate>, ghost p: Pick)
    ensures Direct(p, seen, lagging, leading)
    ensures Members(lag) == p.prio + p.fair && Members(lead) == p.lead - Members(lag)
    ensures Distinct(lag + lead) && Members(lag + lead) == Picked(p)
  {
    ghost var prio, fair, newest;
    lag, prio, fair := Lagging(seen, lagging);
    lead, newest := Leading(seen, leading, Members(lag));
    p := Pick(prio, fair, newest);
    JoinDistinct(lag, lead);
  }

  // The whole selection of the SQLite claim: three bounded reads, a union,
  // and the split.
  method Choose(eligible: set<Candidate>, lagging: nat, leading: nat)
    returns (lag: seq<Candidate>, lead: seq<Candidate>, ghost p: Pick)
    ensures Direct(p, eligible, lagging, leading)
    ensures Members(lag) == p.prio + p.fair && Members(lead) == p.lead - Members(lag)
    ensures Distinct(lag + lead) && Members(lag + lead) == Picked(p)
    ensures |lag + lead| <= lagging + leading && Picked(p) <= eligible
  {
    var r1 := Select(ByPriority, eligible, lagging);
    var r2 := Select(ByWatermark, eligible, lagging);
    var r3 := Select(ByNewest, eligible, leading);
    lag, lead, p := Split(Members(r1) + Members(r2) + Members(r3), lagging, leading);
    BoundedReadsRefineDirect(eligible, Members(r1), Members(r2), Members(r3), p, lagging, leading);
    PickedWithinBudget(p, eligible, lagging, leading);
    DistinctCount(lag + lead);
  }
}
