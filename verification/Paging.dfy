/** Keyset paging: chaining pages by the last key seen gives the unpaged
    ordered result, each row once. */
module Paging {
  import opened Seqs
  import opened EventLog

  // ---------------------------------------------------------------- name order

  // Byte order of names, as `ORDER BY stream` compares them.
  predicate Less(a: string, b: string) {
    b != "" && (a == "" || a[0] < b[0] || (a[0] == b[0] && Less(a[1..], b[1..])))
  }

  lemma {:induction false} LessTrans(a: string, b: string, c: string)
    requires Less(a, b) && Less(b, c)
    ensures Less(a, c)
  {
    if a != "" && a[0] == b[0] == c[0] {
      LessTrans(a[1..], b[1..], c[1..]);
    }
  }

  lemma {:induction false} LessTotal(a: string, b: string)
    ensures Less(a, b) || a == b || Less(b, a)
    ensures !(Less(a, b) && Less(b, a)) && !Less(a, a)
  {
    if a != "" && b != "" {
      LessTotal(a[1..], b[1..]);
      LessTotal(a[1..], a[1..]);
      assert a == [a[0]] + a[1..] && b == [b[0]] + b[1..];
    } else if a != "" {
      LessTotal(a[1..], a[1..]);
    }
  }

  // It is dictionary order: at the first place they differ the lower character,
  // or nothing at all, comes first.
  lemma {:induction false} LessExactly(a: string, b: string)
    ensures Less(a, b) <==>
              exists k :: 0 <= k <= |a| && k < |b| && a[..k] == b[..k] && (k == |a| || a[k] < b[k])
  {
    if a != "" && b != "" && a[0] == b[0] {
      LessExactly(a[1..], b[1..]);
      if k :| 0 <= k <= |a[1..]| && k < |b[1..]| && a[1..][..k] == b[1..][..k] && (k == |a[1..]| || a[1..][k] < b[1..][k]) {
        assert a[..k + 1] == [a[0]] + a[1..][..k] && b[..k + 1] == [b[0]] + b[1..][..k];
      }
      if k :| 0 <= k <= |a| && k < |b| && a[..k] == b[..k] && (k == |a| || a[k] < b[k]) {
        assert k > 0;
        assert a[1..][..k - 1] == a[..k][1..] && b[1..][..k - 1] == b[..k][1..];
      }
    } else if a != "" && b != "" {
      if a[0] < b[0] {
        assert a[..0] == b[..0];
      }
      if k :| 0 <= k <= |a| && k < |b| && a[..k] == b[..k] && (k == |a| || a[k] < b[k]) {
        assert k > 0 ==> a[..k][0] == b[..k][0];
      }
    } else if b != "" {
      assert a[..0] == b[..0];
    }
  }

  predicate First(keys: set<string>, k: string) {
    k in keys && forall j :: j in keys && j != k ==> Less(k, j)
  }

  lemma {:induction false} FirstExists(keys: set<string>)
    requires keys != {}
    ensures exists k :: First(keys, k)
  {
    var x :| x in keys;
    var rest := keys - {x};
    if rest == {} {
      assert keys == {x};
      assert First(keys, x);
    } else {
      FirstExists(rest);
      var f :| First(rest, f);
      LessTotal(x, f);
      if Less(x, f) {
        forall j | j in keys && j != x ensures Less(x, j) {
          if j != f {
            LessTrans(x, f, j);
          }
        }
        assert First(keys, x);
      } else {
        assert First(keys, f);
      }
    }
  }

  lemma FirstUnique(keys: set<string>, a: string, b: string)
    requires First(keys, a) && First(keys, b)
    ensures a == b
  {
    LessTotal(a, b);
  }

  // All keys in name order.
  ghost function Ordered(keys: set<string>): seq<string> {
    if keys == {} then []
    else
      FirstExists(keys);
      var k :| First(keys, k);
      [k] + Ordered(keys - {k})
  }

  lemma OrderedHead(keys: set<string>, k: string)
    requires First(keys, k)
    ensures Ordered(keys) == [k] + Ordered(keys - {k})
  {
    var f :| First(keys, f) && Ordered(keys) == [f] + Ordered(keys - {f});
    FirstUnique(keys, k, f);
  }

  ghost predicate Ascending(xs: seq<string>) {
    forall i, j :: 0 <= i < j < |xs| ==> Less(xs[i], xs[j])
  }

  lemma {:induction false} OrderedSound(keys: set<string>)
    ensures Ascending(Ordered(keys)) && |Ordered(keys)| == |keys|
    ensures forall k :: k in Ordered(keys) <==> k in keys
  {
    if keys != {} {
      FirstExists(keys);
      var k :| First(keys, k) && Ordered(keys) == [k] + Ordered(keys - {k});
      OrderedSound(keys - {k});
    }
  }

  // ---------------------------------------------------------------- name pages

  function Later(keys: set<string>, after: Option<string>): set<string> {
    set k | k in keys && (after.None? || Less(after.value, k))
  }

  // `WHERE stream > after ORDER BY stream LIMIT limit`
  method NamePage(keys: set<string>, after: Option<string>, limit: nat) returns (page: seq<string>)
    ensures page <= Ordered(Later(keys, after))
    ensures |page| <= limit && (|page| < limit ==> page == Ordered(Later(keys, after)))
  {
    page := [];
    var rest := Later(keys, after);
    while |page| < limit && rest != {}
      invariant page + Ordered(rest) == Ordered(Later(keys, after))
      invariant |page| <= limit
      decreases |rest|
    {
      FirstExists(rest);
      var k :| k in rest && forall j :: j in rest && j != k ==> Less(k, j);
      OrderedHead(rest, k);
      assert page + ([k] + Ordered(rest - {k})) == (page + [k]) + Ordered(rest - {k});
      page := page + [k];
      rest := rest - {k};
    }
  }

  // What is left after a page of the remaining names is what lies past its
  // last name.
  lemma PastLast(keys: set<string>, after: Option<string>, page: seq<string>)
    requires page != [] && page <= Ordered(Later(keys, after))
    ensures page + Ordered(Later(keys, Some(page[|page| - 1]))) == Ordered(Later(keys, after))
  {
    var all := Ordered(Later(keys, after));
    var last := page[|page| - 1];
    OrderedSound(Later(keys, after));
    assert all[|page| - 1] == last;
    forall k | k in all[|page|..] ensures k in Later(keys, Some(last)) {
      assert k in all;
      var i :| |page| <= i < |all| && all[i] == k;
      assert Less(all[|page| - 1], all[i]);
    }
    forall k | k in Later(keys, Some(last)) ensures k in all[|page|..] {
      if after.Some? {
        assert last in all;
        LessTrans(after.value, last, k);
      }
      assert k in all;
      var i :| 0 <= i < |all| && all[i] == k;
      LessTotal(all[i], last);
    }
    AscendingUnique(all[|page|..], Later(keys, Some(last)));
  }

  lemma {:induction false} AscendingUnique(xs: seq<string>, keys: set<string>)
    requires Ascending(xs) && forall k :: k in xs <==> k in keys
    ensures xs == Ordered(keys)
  {
    if xs == [] {
      assert keys == {};
    } else {
      var k := xs[0];
      assert k in keys;
      assert First(keys, k);
      OrderedHead(keys, k);
      forall j ensures j in xs[1..] <==> j in keys - {k} {
        LessTotal(k, k);
      }
      AscendingUnique(xs[1..], keys - {k});
    }
  }

  // One more page moves names from what is left to what has been seen.
  lemma PageOn(keys: set<string>, after: Option<string>, page: seq<string>, all: seq<string>)
    requires page != [] && page <= Ordered(Later(keys, after))
    ensures var rest := Ordered(Later(keys, Some(page[|page| - 1])));
            && |rest| < |Ordered(Later(keys, after))|
            && (all + page) + rest == all + Ordered(Later(keys, after))
  {
    PastLast(keys, after, page);
    var rest := Ordered(Later(keys, Some(page[|page| - 1])));
    assert all + (page + rest) == (all + page) + rest;
  }

  // The caller's loop: pages until one comes back short.
  method WalkNames(keys: set<string>, limit: nat) returns (all: seq<string>)
    requires limit >= 1
    ensures all == Ordered(keys)
  {
    all := [];
    var after: Option<string> := None;
    assert Later(keys, None) == keys;
    while true
      invariant all + Ordered(Later(keys, after)) == Ordered(keys)
      decreases |Ordered(Later(keys, after))|
    {
      var page := NamePage(keys, after, limit);
      if |page| < limit {
        return all + page;
      }
      PageOn(keys, after, page, all);
      after := Some(page[|page| - 1]);
      all := all + page;
    }
  }

  // ---------------------------------------------------------------- id pages

  lemma FetchPast(rows: seq<Event>, window: Event -> bool, after: int, k: nat)
    requires Rising(rows) && k < |Fetch(rows, window, after)|
    ensures var all := Fetch(rows, window, after);
            Fetch(rows, window, all[k].id) == all[k + 1..]
  {
    var all := Fetch(rows, window, after);
    var p := (e: Event) => window(e) && e.name != SNAP && e.id > after;
    var last := all[k].id;
    RisingFilter(p, rows);
    FilterMember(p, rows);
    assert all[k] in all;
    var q := (e: Event) => e.id > last;
    FilterTwice(p, q, (e: Event) => window(e) && e.name != SNAP && e.id > last, rows);
    DropBelow(all, q, k + 1);
  }

  // The event-id loop: `after` is the last id of the page before, and a short
  // page ends it.
  method WalkIds(rows: seq<Event>, window: Event -> bool, limit: nat) returns (all: seq<Event>)
    requires limit >= 1 && Rising(rows)
    ensures all == Fetch(rows, window, -1)
  {
    all := [];
    var after := -1;
    while true
      invariant all + Fetch(rows, window, after) == Fetch(rows, window, -1)
      decreases |Fetch(rows, window, after)|
    {
      var page := Take(Fetch(rows, window, after), limit);
      if |page| < limit {
        return all + page;
      }
      FetchPast(rows, window, after, limit - 1);
      after := page[limit - 1].id;
      assert all + (page + Fetch(rows, window, after)) == (all + page) + Fetch(rows, window, after);
      all := all + page;
    }
  }
}
