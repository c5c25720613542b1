/** Per-stream statistics: the cheap path that looks up heads and tails, and
    the path that scans and groups every event. */
module QueryStats {
  import opened Seqs
  import opened EventLog
  import opened Paging
  import opened StreamPattern

  datatype Stats = Stats(head: Event, tail: Option<Event>, count: Option<nat>, names: Option<map<string, nat>>)

  // The returned Map, in key order.
  type Found = seq<(string, Stats)>

  datatype Input = Streams(names: seq<string>) | Like(pattern: string) | Exact(stream: string) | Every

  datatype Where = Where(input: Input, exclude: seq<string>, before: Option<int>, after: Option<string>)

  datatype Options = Options(tail: bool, count: bool, names: bool, limit: Option<nat>)

  predicate Unconvertible(input: Input) {
    input.Like? && !Portable(Body(input.pattern))
  }

  // What the caller asked for: the pattern read as a regular expression.
  ghost predicate Wanted(e: Event, w: Where)
    requires !Unconvertible(w.input)
  {
    && (match w.input
        case Streams(names) => e.stream in names
        case Like(pattern) => Search(pattern, e.stream)
        case Exact(stream) => e.stream == stream
        case Every => true)
    && e.name !in w.exclude
    && (w.before.Some? ==> e.id < w.before.value)
    && (w.after.Some? ==> Less(w.after.value, e.stream))
  }

  ghost function Kept(log: seq<Event>, w: Where): seq<Event>
    requires !Unconvertible(w.input)
  {
    if log == [] then []
    else
      var n := |log| - 1;
      Kept(log[..n], w) + (if Wanted(log[n], w) then [log[n]] else [])
  }

  lemma {:induction false} KeptMember(log: seq<Event>, w: Where)
    requires !Unconvertible(w.input)
    ensures forall e :: e in Kept(log, w) <==> e in log && Wanted(e, w)
  {
    if log != [] {
      var n := |log| - 1;
      KeptMember(log[..n], w);
      assert log == log[..n] + [log[n]];
    }
  }

  lemma {:induction false} NothingKept(log: seq<Event>, w: Where)
    requires w.input == Streams([])
    ensures Kept(log, w) == []
  {
    if log != [] {
      NothingKept(log[..|log| - 1], w);
    }
  }

  function StreamsIn(ef: seq<Event>): set<string> {
    set e | e in ef :: e.stream
  }

  // `ROW_NUMBER() OVER (PARTITION BY stream ORDER BY version DESC) = 1`
  ghost predicate IsHead(ef: seq<Event>, s: string, e: Event) {
    e in ef && e.stream == s && forall x :: x in ef && x.stream == s ==> x.version <= e.version
  }

  ghost predicate IsTail(ef: seq<Event>, s: string, e: Event) {
    e in ef && e.stream == s && forall x :: x in ef && x.stream == s ==> e.version <= x.version
  }

  // The index on (stream, version) is unique.
  ghost predicate UniqueVersions(ef: seq<Event>) {
    forall a, b :: a in ef && b in ef && a.stream == b.stream && a.version == b.version ==> a == b
  }

  function Page(names: seq<string>, limit: Option<nat>): seq<string> {
    if limit.None? then names else Take(names, limit.value)
  }

  // The head of a stream and, when asked for, its tail.
  ghost predicate Placed(ef: seq<Event>, wantTail: bool, s: string, stats: Stats) {
    && IsHead(ef, s, stats.head)
    && (if wantTail then stats.tail.Some? && IsTail(ef, s, stats.tail.value) else stats.tail.None?)
  }

  // What both paths owe: the limited streams in name order, each placed.
  ghost predicate Answers(ef: seq<Event>, wantTail: bool, limit: Option<nat>, out: Found) {
    var names := Page(Ordered(StreamsIn(ef)), limit);
    && |out| == |names|
    && forall i :: 0 <= i < |out| ==> out[i].0 == names[i] && Placed(ef, wantTail, names[i], out[i].1)
  }

  function CountName(ef: seq<Event>, s: string, name: string): nat {
    if ef == [] then 0
    else
      var n := |ef| - 1;
      CountName(ef[..n], s, name) + (if ef[n].stream == s && ef[n].name == name then 1 else 0)
  }

  ghost function Total(m: map<string, nat>): nat {
    if m == map[] then 0
    else
      var k :| k in m;
      m[k] + Total(m - {k})
  }

  lemma {:induction false} TotalSplit(m: map<string, nat>, k: string)
    requires k in m
    ensures Total(m) == m[k] + Total(m - {k})
  {
    var j :| j in m && Total(m) == m[j] + Total(m - {j});
    if j != k {
      TotalSplit(m - {j}, k);
      TotalSplit(m - {k}, j);
      assert m - {j} - {k} == m - {k} - {j};
    }
  }

  // Counting one more event of a name.
  lemma TotalBump(m: map<string, nat>, name: string)
    ensures Total(m[name := (if name in m then m[name] else 0) + 1]) == Total(m) + 1
  {
    var m' := m[name := (if name in m then m[name] else 0) + 1];
    TotalSplit(m', name);
    assert m' - {name} == m - {name};
    if name in m {
      TotalSplit(m, name);
    } else {
      assert m - {name} == m;
    }
  }

  // ---------------------------------------------------------------- the paths

  ghost predicate IsRanked(ef: seq<Event>, newest: bool, s: string, e: Event) {
    if newest then IsHead(ef, s, e) else IsTail(ef, s, e)
  }

  // The rows with `rn = 1`, by partition.
  ghost predicate FirstRows(ef: seq<Event>, newest: bool, first: map<string, Event>) {
    && first.Keys == StreamsIn(ef)
    && forall s :: s in first ==> IsRanked(ef, newest, s, first[s])
  }

  // `ROW_NUMBER() OVER (PARTITION BY stream ORDER BY version DESC / ASC) = 1`
  method Ranked(ef: seq<Event>, newest: bool) returns (first: map<string, Event>)
    ensures FirstRows(ef, newest, first)
  {
    first := map[];
    for i := 0 to |ef|
      invariant FirstRows(ef[..i], newest, first)
    {
      var e := ef[i];
      RankOne(ef[..i], newest, first, e);
      assert ef[..i + 1] == ef[..i] + [e];
      if e.stream !in first || Outranks(newest, e, first[e.stream]) {
        first := first[e.stream := e];
      }
    }
    assert ef[..|ef|] == ef;
  }

  predicate Outranks(newest: bool, a: Event, b: Event) {
    if newest then a.version > b.version else a.version < b.version
  }

  lemma RankOne(ef: seq<Event>, newest: bool, first: map<string, Event>, e: Event)
    requires FirstRows(ef, newest, first)
    ensures FirstRows(ef + [e], newest,
                      if e.stream !in first || Outranks(newest, e, first[e.stream]) then first[e.stream := e] else first)
  {
    var more := ef + [e];
    assert forall x :: x in more <==> x in ef || x == e;
    assert StreamsIn(more) == StreamsIn(ef) + {e.stream};
    var after := if e.stream !in first || Outranks(newest, e, first[e.stream]) then first[e.stream := e] else first;
    forall s | s in after ensures IsRanked(more, newest, s, after[s]) {
      assert s in first ==> IsRanked(ef, newest, s, first[s]);
    }
  }

  // `... WHERE rn = 1 ORDER BY stream LIMIT limit`
  method Heads(ef: seq<Event>, limit: Option<nat>) returns (heads: seq<Event>)
    ensures HeadRows(ef, limit, heads)
  {
    var first := Ranked(ef, true);
    var names := Names(first.Keys, limit);
    heads := seq(|names|, i requires 0 <= i < |names| => first[names[i]]);
  }

  ghost predicate HeadRows(ef: seq<Event>, limit: Option<nat>, heads: seq<Event>) {
    var names := Page(Ordered(StreamsIn(ef)), limit);
    && |heads| == |names|
    && forall i :: 0 <= i < |heads| ==> heads[i].stream == names[i] && IsHead(ef, names[i], heads[i])
  }

  // The heads' streams are the page of names, each once.
  lemma HeadStreams(ef: seq<Event>, limit: Option<nat>, heads: seq<Event>)
    requires HeadRows(ef, limit, heads)
    ensures forall i, j :: 0 <= i < j < |heads| ==> heads[i].stream != heads[j].stream
    ensures StreamsIn(heads) == set s | s in Page(Ordered(StreamsIn(ef)), limit)
    ensures StreamsIn(heads) <= StreamsIn(ef)
  {
    var names := Page(Ordered(StreamsIn(ef)), limit);
    DistinctPage(StreamsIn(ef), limit);
    forall i, j | 0 <= i < j < |heads| ensures heads[i].stream != heads[j].stream {
      assert names[i] != names[j];
    }
    forall s | s in names ensures s in StreamsIn(heads) {
      var i :| 0 <= i < |names| && names[i] == s;
      assert heads[i] in heads;
    }
  }

  // `WHERE t.rn = 1 AND t.stream IN (...)`, which asks for no order.
  method Semijoin(first: map<string, Event>, chosen: set<string>) returns (rows: seq<Event>)
    requires chosen <= first.Keys && forall s :: s in first ==> first[s].stream == s
    ensures StreamsIn(rows) == chosen
    ensures forall e :: e in rows ==> e.stream in first && e == first[e.stream]
  {
    rows := [];
    var rest := first.Keys;
    while rest != {}
      invariant rest <= first.Keys
      invariant StreamsIn(rows) == chosen - rest
      invariant forall e :: e in rows ==> e.stream in first && e == first[e.stream]
      decreases |rest|
    {
      var s :| s in rest;
      if s in chosen {
        assert StreamsIn(rows + [first[s]]) == StreamsIn(rows) + {s};
        rows := rows + [first[s]];
      }
      rest := rest - {s};
    }
  }

  // The tail query: every stream's first row, among a page of heads that it
  // ranks, orders and limits once more.
  method Tails(ef: seq<Event>, limit: Option<nat>) returns (tails: seq<Event>)
    ensures StreamsIn(tails) == set s | s in Page(Ordered(StreamsIn(ef)), limit)
    ensures forall e :: e in tails ==> IsTail(ef, e.stream, e)
  {
    var first := Ranked(ef, false);
    var heads := Heads(ef, limit);
    HeadStreams(ef, limit, heads);
    assert forall s :: s in first ==> IsRanked(ef, false, s, first[s]);
    tails := Semijoin(first, StreamsIn(heads));
  }

  // Heads from one query, entered in order; tails from the second one, in
  // whatever order it gives them, written to the entries by stream.
  method HeadsOnly(ef: seq<Event>, wantTail: bool, limit: Option<nat>) returns (out: Found)
    ensures Answers(ef, wantTail, limit, out)
    ensures forall i :: 0 <= i < |out| ==> out[i].1.count.None? && out[i].1.names.None?
  {
    var heads := Heads(ef, limit);
    HeadStreams(ef, limit, heads);
    var tails := [];
    if wantTail {
      tails := Tails(ef, limit);
    }
    out := Merge(heads, tails);
    forall i | 0 <= i < |out| ensures Placed(ef, wantTail, heads[i].stream, out[i].1) {
      assert Merged(heads[i], tails, out[i]) && heads[i] in heads;
    }
  }

  lemma DistinctPage(keys: set<string>, limit: Option<nat>)
    ensures var names := Page(Ordered(keys), limit);
            forall i, j :: 0 <= i < j < |names| ==> names[i] != names[j]
  {
    var all := Ordered(keys);
    OrderedSound(keys);
    forall i, j | 0 <= i < j < |all| ensures all[i] != all[j] {
      LessTotal(all[i], all[i]);
    }
  }

  // The assembly in JavaScript: `out.set` per head, then `out.get(..).tail =`
  // per tail.
  method Merge(heads: seq<Event>, tails: seq<Event>) returns (out: Found)
    requires forall i, j :: 0 <= i < j < |heads| ==> heads[i].stream != heads[j].stream
    requires StreamsIn(tails) <= StreamsIn(heads)
    ensures |out| == |heads|
    ensures forall i :: 0 <= i < |out| ==> Merged(heads[i], tails, out[i])
  {
    var entries: map<string, Stats> := map[];
    for i := 0 to |heads|
      invariant forall k :: 0 <= k < i ==> heads[k].stream in entries && entries[heads[k].stream] == HeadOnly(heads[k])
    {
      entries := entries[heads[i].stream := HeadOnly(heads[i])];
    }
    for j := 0 to |tails|
      invariant forall k :: 0 <= k < |heads| ==>
        heads[k].stream in entries && Merged(heads[k], tails[..j], (heads[k].stream, entries[heads[k].stream]))
    {
      var t := tails[j];
      assert t in tails && t.stream in StreamsIn(heads);
      assert tails[..j + 1] == tails[..j] + [t];
      entries := entries[t.stream := entries[t.stream].(tail := Some(t))];
    }
    assert tails[..|tails|] == tails;
    out := seq(|heads|, i requires 0 <= i < |heads| => (heads[i].stream, entries[heads[i].stream]));
  }

  function HeadOnly(head: Event): Stats {
    Stats(head, None, None, None)
  }

  // A head's entry, with the last tail of its stream if there is one.
  ghost predicate Merged(head: Event, tails: seq<Event>, entry: (string, Stats)) {
    && entry.0 == head.stream
    && entry.1 == HeadOnly(head).(tail := entry.1.tail)
    && (entry.1.tail.Some? ==> entry.1.tail.value in tails && entry.1.tail.value.stream == head.stream)
    && (head.stream in StreamsIn(tails) ==> entry.1.tail.Some?)
  }

  method Names(keys: set<string>, limit: Option<nat>) returns (names: seq<string>)
    ensures names == Page(Ordered(keys), limit)
    ensures forall i :: 0 <= i < |names| ==> names[i] in keys
  {
    OrderedSound(keys);
    assert Later(keys, None) == keys;
    names := NamePage(keys, None, if limit.Some? then limit.value else |keys|);
    assert names == Ordered(keys)[..|names|];
    forall i | 0 <= i < |names| ensures names[i] in keys {
      assert Ordered(keys)[i] in Ordered(keys);
    }
  }

  // The counted groups after a scan of `ef`: per stream, how often each name
  // occurs, and that the counts add up to the stream's events.
  ghost predicate Grouped(ef: seq<Event>, groups: map<string, map<string, nat>>) {
    && groups.Keys == StreamsIn(ef)
    && forall s :: s in groups ==> Counted(ef, s, groups[s])
  }

  ghost predicate Counted(ef: seq<Event>, s: string, names: map<string, nat>) {
    && (forall name :: name in names <==> CountName(ef, s, name) > 0)
    && (forall name :: name in names ==> names[name] == CountName(ef, s, name))
    && Total(names) == |Of(ef, s)|
  }

  function Bump(m: map<string, nat>, name: string): map<string, nat> {
    m[name := (if name in m then m[name] else 0) + 1]
  }

  function GroupOf(groups: map<string, map<string, nat>>, s: string): map<string, nat> {
    if s in groups then groups[s] else map[]
  }

  lemma {:induction false} NothingCounted(ef: seq<Event>, s: string, name: string)
    requires s !in StreamsIn(ef)
    ensures CountName(ef, s, name) == 0 && Of(ef, s) == []
  {
    if ef != [] {
      var n := |ef| - 1;
      assert ef[n] in ef;
      assert StreamsIn(ef[..n]) <= StreamsIn(ef);
      NothingCounted(ef[..n], s, name);
    }
  }

  lemma CountedNone(ef: seq<Event>, s: string)
    requires s !in StreamsIn(ef)
    ensures Counted(ef, s, map[])
  {
    forall name ensures CountName(ef, s, name) == 0 && Of(ef, s) == [] {
      NothingCounted(ef, s, name);
    }
    NothingCounted(ef, s, "");
  }

  lemma CountSnoc(ef: seq<Event>, e: Event, s: string, name: string)
    ensures CountName(ef + [e], s, name) == CountName(ef, s, name) + (if e.stream == s && e.name == name then 1 else 0)
    ensures |Of(ef + [e], s)| == |Of(ef, s)| + (if e.stream == s then 1 else 0)
  {
    assert (ef + [e])[..|ef|] == ef;
  }

  lemma CountedMore(ef: seq<Event>, e: Event, s: string, names: map<string, nat>)
    requires Counted(ef, s, names)
    ensures Counted(ef + [e], s, if e.stream == s then Bump(names, e.name) else names)
  {
    hide Total, CountName, Of;
    TotalBump(names, e.name);
    CountSnoc(ef, e, s, "");
    forall name
      ensures CountName(ef + [e], s, name) == CountName(ef, s, name) + (if e.stream == s && e.name == name then 1 else 0)
    {
      CountSnoc(ef, e, s, name);
    }
  }

  lemma GroupOne(ef: seq<Event>, groups: map<string, map<string, nat>>, e: Event)
    requires Grouped(ef, groups)
    ensures Grouped(ef + [e], groups[e.stream := Bump(GroupOf(groups, e.stream), e.name)])
  {
    var after := groups[e.stream := Bump(GroupOf(groups, e.stream), e.name)];
    assert StreamsIn(ef + [e]) == StreamsIn(ef) + {e.stream};
    if e.stream !in groups {
      CountedNone(ef, e.stream);
    }
    forall s | s in after ensures Counted(ef + [e], s, after[s]) {
      CountedMore(ef, e, s, GroupOf(groups, s));
    }
  }

  // `GROUP BY stream, name`
  method Group(ef: seq<Event>) returns (groups: map<string, map<string, nat>>)
    ensures Grouped(ef, groups)
  {
    groups := map[];
    for i := 0 to |ef|
      invariant Grouped(ef[..i], groups)
    {
      GroupOne(ef[..i], groups, ef[i]);
      assert ef[..i + 1] == ef[..i] + [ef[i]];
      groups := groups[ef[i].stream := Bump(GroupOf(groups, ef[i].stream), ef[i].name)];
    }
    assert ef[..|ef|] == ef;
  }

  // `SUM(n) ... GROUP BY stream`
  method Sum(names: map<string, nat>) returns (sum: nat)
    ensures sum == Total(names)
  {
    sum := 0;
    var rest := names;
    while rest != map[]
      invariant sum + Total(rest) == Total(names)
      decreases |rest|
    {
      var k :| k in rest;
      TotalSplit(rest, k);
      sum := sum + rest[k];
      rest := rest - {k};
    }
  }

  // The aggregates of one stream: every matching event is counted once, under
  // its own name, and the total is the sum over the names.
  ghost predicate Aggregates(ef: seq<Event>, o: Options, s: string, stats: Stats) {
    && stats.count == (if o.count then Some(|Of(ef, s)|) else None)
    && stats.names.Some? == o.names
    && (o.names ==> Counted(ef, s, stats.names.value))
    && (o.count && o.names ==> stats.count == Some(Total(stats.names.value)))
  }

  datatype Agg = Agg(count: nat, names: map<string, nat>)

  ghost predicate AggRows(ef: seq<Event>, agg: map<string, Agg>) {
    && agg.Keys == StreamsIn(ef)
    && forall s :: s in agg ==> Counted(ef, s, agg[s].names) && agg[s].count == Total(agg[s].names)
  }

  // The `agg` CTE, over every stream.
  method Aggregate(ef: seq<Event>) returns (agg: map<string, Agg>)
    ensures AggRows(ef, agg)
  {
    var groups := Group(ef);
    agg := Sums(groups);
  }

  method Sums(groups: map<string, map<string, nat>>) returns (agg: map<string, Agg>)
    ensures agg.Keys == groups.Keys
    ensures forall s :: s in agg ==> agg[s].names == groups[s] && agg[s].count == Total(groups[s])
  {
    agg := map[];
    var rest := groups.Keys;
    while rest != {}
      invariant rest <= groups.Keys && agg.Keys == groups.Keys - rest
      invariant forall s :: s in agg ==> agg[s].names == groups[s] && agg[s].count == Total(groups[s])
      decreases |rest|
    {
      var s :| s in rest;
      var sum := Sum(groups[s]);
      agg := agg[s := Agg(sum, groups[s])];
      rest := rest - {s};
    }
  }

  // A row of `heads h LEFT JOIN agg a LEFT JOIN tails t ON stream`.
  datatype Joined = Joined(head: Event, agg: Option<Agg>, tail: Option<Event>)

  function Matching<T>(rows: map<string, T>, s: string): Option<T> {
    if s in rows then Some(rows[s]) else None
  }

  function Entry(row: Joined, o: Options): Stats
    requires row.agg.Some?
  {
    Stats(row.head,
          if o.tail then row.tail else None,
          if o.count then Some(row.agg.value.count) else None,
          if o.names then Some(row.agg.value.names) else None)
  }

  // Limited heads, joined to the aggregates and the tails of every stream.
  method FullScan(ef: seq<Event>, o: Options) returns (out: Found)
    ensures Answers(ef, o.tail, o.limit, out)
    ensures forall i :: 0 <= i < |out| ==> Aggregates(ef, o, out[i].0, out[i].1)
  {
    var agg := Aggregate(ef);
    var heads := Heads(ef, o.limit);
    var tails: map<string, Event> := map[];
    if o.tail {
      tails := Ranked(ef, false);
    }
    out := [];
    for i := 0 to |heads|
      invariant |out| == i
      invariant forall k :: 0 <= k < i ==> Described(ef, o, heads[k].stream, out[k])
    {
      var h := heads[i];
      var row := Joined(h, Matching(agg, h.stream), Matching(tails, h.stream));
      JoinedRow(ef, o, agg, tails, row);
      out := out + [(h.stream, Entry(row, o))];
    }
    forall i | 0 <= i < |out| ensures Described(ef, o, out[i].0, out[i]) {
      assert Described(ef, o, heads[i].stream, out[i]);
    }
  }

  ghost predicate Described(ef: seq<Event>, o: Options, s: string, entry: (string, Stats)) {
    entry.0 == s && Placed(ef, o.tail, s, entry.1) && Aggregates(ef, o, s, entry.1)
  }

  lemma JoinedRow(ef: seq<Event>, o: Options, agg: map<string, Agg>, tails: map<string, Event>, row: Joined)
    requires AggRows(ef, agg) && (o.tail ==> FirstRows(ef, false, tails))
    requires IsHead(ef, row.head.stream, row.head)
    requires row == Joined(row.head, Matching(agg, row.head.stream), Matching(tails, row.head.stream))
    ensures row.agg.Some?
    ensures Described(ef, o, row.head.stream, (row.head.stream, Entry(row, o)))
  {
    var s := row.head.stream;
    assert s in StreamsIn(ef);
    assert Counted(ef, s, agg[s].names);
    if o.tail {
      assert IsRanked(ef, false, s, tails[s]);
    }
  }

  // ---------------------------------------------------------------- the query

  method Scan(log: seq<Event>, w: Where) returns (r: Result<seq<Event>>)
    ensures r.Ok? <==> !Unconvertible(w.input)
    ensures r.Ok? ==> r.value == Kept(log, w)
  {
    var glob := Ok("");
    if w.input.Like? {
      glob := StreamPatternToGlob(w.input.pattern);
      CompileKeepsMeaning(w.input.pattern, "");
      if glob.ValidationError? {
        return ValidationError(glob.input);
      }
    }
    var ef := [];
    for i := 0 to |log|
      invariant w.input.Like? ==> glob == Compile(w.input.pattern) && glob.Ok?
      invariant ef == Kept(log[..i], w)
    {
      var e := log[i];
      if w.input.Like? {
        CompileKeepsMeaning(w.input.pattern, e.stream);
      }
      var named := match w.input
        case Streams(names) => e.stream in names
        case Like(pattern) => Glob(glob.value, e.stream)
        case Exact(stream) => e.stream == stream
        case Every => true;
      assert log[..i + 1][..i] == log[..i];
      if named && e.name !in w.exclude && (w.before.None? || e.id < w.before.value)
         && (w.after.None? || Less(w.after.value, e.stream)) {
        ef := ef + [e];
      }
    }
    assert log[..|log|] == log;
    return Ok(ef);
  }

  method QueryStats(log: seq<Event>, w: Where, o: Options) returns (r: Result<Found>)
    ensures r.Ok? <==> !Unconvertible(w.input)
    ensures r.Ok? ==> Answers(Kept(log, w), o.tail, o.limit, r.value)
    ensures r.Ok? ==> forall i :: 0 <= i < |r.value| ==> Aggregates(Kept(log, w), o, r.value[i].0, r.value[i].1)
  {
    if w.input == Streams([]) {
      NothingKept(log, w);
      assert Ordered(StreamsIn([])) == [];
      return Ok([]);
    }
    var ef := Scan(log, w);
    if ef.ValidationError? {
      return ValidationError(ef.input);
    }
    var out;
    if o.count || o.names {
      out := FullScan(ef.value, o);
    } else {
      out := HeadsOnly(ef.value, o.tail, o.limit);
    }
    r := Ok(out);
  }

  // The same streams in the same order with the same heads and tails.
  ghost predicate SamePlaces(a: Found, b: Found) {
    && |a| == |b|
    && forall i :: 0 <= i < |a| ==> a[i].0 == b[i].0 && a[i].1.head == b[i].1.head && a[i].1.tail == b[i].1.tail
  }

  // What the cheap path and the full scan return, over one log and filter:
  // the same streams in the same order with the same head and tail.
  lemma PathsAgree(t: Table, w: Where, wantTail: bool, limit: Option<nat>, cheap: Found, full: Found)
    requires Valid(t) && !Unconvertible(w.input)
    requires Answers(Kept(t.rows, w), wantTail, limit, cheap)
    requires Answers(Kept(t.rows, w), wantTail, limit, full)
    ensures SamePlaces(cheap, full)
  {
    ValidUnique(t);
    KeptUnique(t.rows, w);
    SameAnswers(Kept(t.rows, w), wantTail, limit, cheap, full);
  }

  // The query twice over, once asking for no aggregates and once for some: the
  // two paths, on the same log, agree.
  method BothPaths(t: Table, w: Where, o: Options) returns (cheap: Result<Found>, full: Result<Found>)
    requires Valid(t) && (o.count || o.names)
    ensures cheap.Ok? <==> full.Ok?
    ensures cheap.Ok? <==> !Unconvertible(w.input)
    ensures cheap.Ok? ==> SamePlaces(cheap.value, full.value)
  {
    cheap := QueryStats(t.rows, w, o.(count := false, names := false));
    full := QueryStats(t.rows, w, o);
    if cheap.Ok? {
      PathsAgree(t, w, o.tail, o.limit, cheap.value, full.value);
    }
  }

  lemma ValidUnique(t: Table)
    requires Valid(t)
    ensures UniqueVersions(t.rows)
  {
    forall a, b | a in t.rows && b in t.rows && a.stream == b.stream && a.version == b.version ensures a == b {
      var of := Of(t.rows, a.stream);
      OfRising(t.rows, a.stream);
      assert a in of && b in of && Contiguous(of);
      var i :| 0 <= i < |of| && of[i] == a;
      var j :| 0 <= j < |of| && of[j] == b;
      assert of[i].version == of[0].version + i && of[j].version == of[0].version + j;
    }
  }

  lemma KeptUnique(log: seq<Event>, w: Where)
    requires UniqueVersions(log) && !Unconvertible(w.input)
    ensures UniqueVersions(Kept(log, w))
  {
    KeptMember(log, w);
  }

  lemma SameAnswers(ef: seq<Event>, wantTail: bool, limit: Option<nat>, a: Found, b: Found)
    requires UniqueVersions(ef) && Answers(ef, wantTail, limit, a) && Answers(ef, wantTail, limit, b)
    ensures SamePlaces(a, b)
  {
    forall i | 0 <= i < |a| ensures a[i].1.head == b[i].1.head && a[i].1.tail == b[i].1.tail {
      SamePlace(ef, wantTail, a[i].0, a[i].1, b[i].1);
    }
  }

  lemma SamePlace(ef: seq<Event>, wantTail: bool, s: string, a: Stats, b: Stats)
    requires UniqueVersions(ef) && Placed(ef, wantTail, s, a) && Placed(ef, wantTail, s, b)
    ensures a.head == b.head && a.tail == b.tail
  {
    assert a.head.version == b.head.version;
    if wantTail {
      assert a.tail.value.version == b.tail.value.version;
    }
  }
}
