/** Filtering sequences, as SQL `WHERE` over rows in id order. */
module Seqs {

  datatype Option<+T> = None | Some(value: T)

  // `LIMIT k`, or a slice of at most `k`.
  function Take<T>(xs: seq<T>, k: nat): seq<T> {
    if |xs| < k then xs else xs[..k]
  }

  function Filter<T>(p: T -> bool, xs: seq<T>): (ys: seq<T>)
    ensures |ys| <= |xs|
  {
    if xs == [] then []
    else
      var n := |xs| - 1;
      Filter(p, xs[..n]) + (if p(xs[n]) then [xs[n]] else [])
  }

  lemma {:induction false} FilterAppend<T>(p: T -> bool, xs: seq<T>, ys: seq<T>)
    ensures Filter(p, xs + ys) == Filter(p, xs) + Filter(p, ys)
  {
    if ys == [] {
      assert xs + ys == xs;
    } else {
      var n := |ys| - 1;
      FilterAppend(p, xs, ys[..n]);
      var all := xs + ys;
      assert all[..|xs| + n] == xs + ys[..n] && all[|xs| + n] == ys[n];
      assert Filter(p, all) == Filter(p, all[..|all| - 1]) + (if p(all[|all| - 1]) then [all[|all| - 1]] else []);
    }
  }

  lemma {:induction false} FilterMember<T>(p: T -> bool, xs: seq<T>)
    ensures forall x :: x in Filter(p, xs) <==> x in xs && p(x)
  {
    if xs != [] {
      var n := |xs| - 1;
      FilterMember(p, xs[..n]);
      assert xs == xs[..n] + [xs[n]];
    }
  }

  // Two filters in a row are one, and only what the predicate says of the
  // members matters.
  lemma {:induction false} FilterTwice<T>(p: T -> bool, q: T -> bool, r: T -> bool, xs: seq<T>)
    requires forall x :: x in xs ==> (r(x) <==> p(x) && q(x))
    ensures Filter(q, Filter(p, xs)) == Filter(r, xs)
  {
    if xs != [] {
      var n := |xs| - 1;
      assert forall x :: x in xs[..n] ==> x in xs;
      FilterTwice(p, q, r, xs[..n]);
      var last := if p(xs[n]) then [xs[n]] else [];
      FilterAppend(q, Filter(p, xs[..n]), last);
      assert xs[n] in xs;
      if p(xs[n]) {
        assert last[..0] == [];
        assert Filter(q, last) == if q(xs[n]) then [xs[n]] else [];
      }
    }
  }

  lemma {:induction false} FilterAll<T>(p: T -> bool, xs: seq<T>)
    requires forall i :: 0 <= i < |xs| ==> p(xs[i])
    ensures Filter(p, xs) == xs
  {
    if xs != [] {
      var n := |xs| - 1;
      FilterAll(p, xs[..n]);
    }
  }

  lemma {:induction false} FilterNone<T>(p: T -> bool, xs: seq<T>)
    requires forall i :: 0 <= i < |xs| ==> !p(xs[i])
    ensures Filter(p, xs) == []
  {
    if xs != [] {
      var n := |xs| - 1;
      FilterNone(p, xs[..n]);
    }
  }

  lemma FilterOne<T>(p: T -> bool, x: T)
    ensures Filter(p, [x]) == if p(x) then [x] else []
  {
    assert [x][..0] == [];
  }

  // When everything outside `p` is kept, what is dropped is dropped from
  // within it.
  lemma {:induction false} FilterWithin<T>(p: T -> bool, keep: T -> bool, xs: seq<T>)
    requires forall x :: x in xs && !p(x) ==> keep(x)
    ensures |xs| - |Filter(keep, xs)| == |Filter(p, xs)| - |Filter(keep, Filter(p, xs))|
  {
    if xs != [] {
      var n := |xs| - 1;
      var last := xs[n];
      assert xs[..n] + [last] == xs && last in xs && forall x :: x in xs[..n] ==> x in xs;
      FilterWithin(p, keep, xs[..n]);
      FilterAppend(keep, xs[..n], [last]);
      FilterAppend(p, xs[..n], [last]);
      FilterAppend(keep, Filter(p, xs[..n]), Filter(p, [last]));
      FilterOne(keep, last);
      FilterOne(p, last);
    }
  }
}
