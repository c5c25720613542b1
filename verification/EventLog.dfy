/** The event table: commit, truncate and the reads that load a stream. */
module EventLog {
  import opened Seqs
  import opened Values

  const SNAP := "__snapshot__"
  const TOMBSTONE := "__tombstone__"

  datatype Event = Event(id: int, stream: string, version: int, name: string, data: Value, created: int)

  datatype Message = Message(name: string, data: Value)

  // The rows in id order, and the AUTOINCREMENT counter.
  datatype Table = Table(rows: seq<Event>, sequence: int)

  datatype CommitResult =
    | Committed(events: seq<Event>)
    | ConcurrencyError(stream: string, lastVersion: int, expectedVersion: int)

  datatype Target = Target(stream: string, snapshot: Option<Value>, before: Option<int>, maxId: Option<int>)

  // ---------------------------------------------------------------- reads

  function Of(rows: seq<Event>, stream: string): seq<Event> {
    Filter((e: Event) => e.stream == stream, rows)
  }

  // `COALESCE(MAX(version), -1)`
  function MaxVersion(rows: seq<Event>, stream: string): int {
    if rows == [] then -1
    else
      var n := |rows| - 1;
      var m := MaxVersion(rows[..n], stream);
      if rows[n].stream == stream && rows[n].version > m then rows[n].version else m
  }

  // `COALESCE(MAX(id), -1)` over the snapshots of a stream
  function SnapshotFloor(rows: seq<Event>, stream: string): int {
    if rows == [] then -1
    else
      var n := |rows| - 1;
      var m := SnapshotFloor(rows[..n], stream);
      if rows[n].stream == stream && rows[n].name == SNAP && rows[n].id > m then rows[n].id else m
  }

  // `with_snaps` on an exact stream: resume at the latest snapshot.
  function WithSnaps(rows: seq<Event>, stream: string): seq<Event> {
    var floor := SnapshotFloor(rows, stream);
    Filter((e: Event) => e.stream == stream && e.id >= floor, rows)
  }

  // A drain fetch: no snapshots, strictly after a watermark.
  function Fetch(rows: seq<Event>, window: Event -> bool, after: int): seq<Event> {
    Filter((e: Event) => window(e) && e.name != SNAP && e.id > after, rows)
  }

  // ---------------------------------------------------------------- writes

  function NewRows(t: Table, stream: string, msgs: seq<Message>, base: int, now: int): seq<Event> {
    seq(|msgs|, i requires 0 <= i < |msgs| =>
      Event(t.sequence + 1 + i, stream, base + 1 + i, msgs[i].name, msgs[i].data, now))
  }

  function Append(t: Table, stream: string, msgs: seq<Message>, base: int, now: int): Table {
    Table(t.rows + NewRows(t, stream, msgs, base, now), t.sequence + |msgs|)
  }

  predicate Refused(t: Table, stream: string, expected: Option<int>) {
    expected.Some? && expected.value != MaxVersion(t.rows, stream)
  }

  function Commit(t: Table, stream: string, msgs: seq<Message>, expected: Option<int>, now: int): Table {
    if Refused(t, stream, expected) then t
    else Append(t, stream, msgs, MaxVersion(t.rows, stream), now)
  }

  predicate Qualifies(e: Event, stream: string, before: int, maxId: Option<int>) {
    e.stream == stream && e.name == SNAP && e.created < before && (maxId.None? || e.id <= maxId.value)
  }

  // The latest snapshot older than the cutoff and at or below the cap.
  function Boundary(rows: seq<Event>, stream: string, before: int, maxId: Option<int>): Option<Event> {
    var found := Filter((e: Event) => Qualifies(e, stream, before, maxId), rows);
    if found == [] then None else Some(found[|found| - 1])
  }

  function Windowed(t: Table, stream: string, before: int, maxId: Option<int>): Table {
    match Boundary(t.rows, stream, before, maxId)
    case None => t
    case Some(b) => t.(rows := Filter((e: Event) => !(e.stream == stream && e.id < b.id), t.rows))
  }

  function Seed(t: Table, stream: string, snapshot: Option<Value>, now: int): Event {
    Event(t.sequence + 1, stream, 0,
          if snapshot.Some? then SNAP else TOMBSTONE,
          if snapshot.Some? then snapshot.value else EMPTY, now)
  }

  function Full(t: Table, stream: string, snapshot: Option<Value>, now: int): Table {
    Table(Filter((e: Event) => e.stream != stream, t.rows) + [Seed(t, stream, snapshot, now)], t.sequence + 1)
  }

  // ---------------------------------------------------------------- shape

  ghost predicate Rising(rows: seq<Event>) {
    forall i, j :: 0 <= i < j < |rows| ==> rows[i].id < rows[j].id
  }

  ghost predicate Contiguous(rows: seq<Event>) {
    && (forall i :: 0 <= i < |rows| ==> rows[i].version == rows[0].version + i)
    && (rows != [] ==> rows[0].version >= 0)
  }

  ghost predicate Valid(t: Table) {
    && t.sequence >= 0
    && Rising(t.rows)
    && (forall e :: e in t.rows ==> 0 < e.id <= t.sequence)
    && forall s :: Contiguous(Of(t.rows, s))
  }

  lemma RisingMore(rows: seq<Event>, e: Event)
    requires Rising(rows)
    ensures rows == [] || rows[|rows| - 1].id < e.id ==> Rising(rows + [e])
  {
  }

  lemma {:induction false} RisingFilter(p: Event -> bool, rows: seq<Event>)
    requires Rising(rows)
    ensures Rising(Filter(p, rows))
    ensures Filter(p, rows) != [] ==> rows != [] && Filter(p, rows)[|Filter(p, rows)| - 1].id <= rows[|rows| - 1].id
  {
    if rows != [] {
      var n := |rows| - 1;
      RisingFilter(p, rows[..n]);
      RisingMore(Filter(p, rows[..n]), rows[n]);
      assert rows[..n] != [] ==> rows[n - 1].id < rows[n].id;
    }
  }

  lemma {:induction false} MaxVersionIsLast(rows: seq<Event>, stream: string)
    requires Contiguous(Of(rows, stream))
    ensures var of := Of(rows, stream);
            MaxVersion(rows, stream) == if of == [] then -1 else of[|of| - 1].version
  {
    if rows != [] {
      var n := |rows| - 1;
      var prev := Of(rows[..n], stream);
      assert forall i :: 0 <= i < |prev| ==> prev[i] == Of(rows, stream)[i];
      MaxVersionIsLast(rows[..n], stream);
    }
  }

  lemma {:induction false} FloorIsLatest(rows: seq<Event>, stream: string)
    requires forall e :: e in rows ==> e.id >= 0
    ensures var f := SnapshotFloor(rows, stream);
            && (forall e :: e in rows && e.stream == stream && e.name == SNAP ==> e.id <= f)
            && (f == -1 || exists e :: e in rows && e.stream == stream && e.name == SNAP && e.id == f)
  {
    if rows != [] {
      var n := |rows| - 1;
      assert rows == rows[..n] + [rows[n]];
      FloorIsLatest(rows[..n], stream);
    }
  }

  lemma OfAppend(rows: seq<Event>, more: seq<Event>, stream: string, s: string)
    requires forall e :: e in more ==> e.stream == stream
    ensures Of(rows + more, s) == if s == stream then Of(rows, s) + more else Of(rows, s)
  {
    var p := (e: Event) => e.stream == s;
    FilterAppend(p, rows, more);
    if s == stream {
      FilterAll(p, more);
    } else {
      FilterNone(p, more);
    }
  }

  lemma CommitOf(t: Table, stream: string, msgs: seq<Message>, base: int, now: int, s: string)
    ensures Of(Append(t, stream, msgs, base, now).rows, s) ==
            if s == stream then Of(t.rows, s) + NewRows(t, stream, msgs, base, now) else Of(t.rows, s)
  {
    OfAppend(t.rows, NewRows(t, stream, msgs, base, now), stream, s);
  }

  // ---------------------------------------------------------------- preservation

  lemma AppendValid(t: Table, stream: string, msgs: seq<Message>, now: int)
    requires Valid(t)
    ensures Valid(Append(t, stream, msgs, MaxVersion(t.rows, stream), now))
  {
    var base := MaxVersion(t.rows, stream);
    var t' := Append(t, stream, msgs, base, now);
    forall s ensures Contiguous(Of(t'.rows, s)) {
      assert Contiguous(Of(t.rows, s)) && Contiguous(Of(t.rows, stream));
      AppendContiguous(t, stream, msgs, now, s);
    }
  }

  lemma AppendContiguous(t: Table, stream: string, msgs: seq<Message>, now: int, s: string)
    requires Contiguous(Of(t.rows, s)) && Contiguous(Of(t.rows, stream))
    ensures Contiguous(Of(Append(t, stream, msgs, MaxVersion(t.rows, stream), now).rows, s))
  {
    MaxVersionIsLast(t.rows, stream);
    CommitOf(t, stream, msgs, MaxVersion(t.rows, stream), now, s);
  }

  // In id order, dropping what lies below a member's id leaves the suffix
  // that starts at it.
  lemma {:induction false} DropBelow(of: seq<Event>, keep: Event -> bool, d: nat)
    requires d <= |of|
    requires forall i :: 0 <= i < |of| ==> (keep(of[i]) <==> d <= i)
    ensures Filter(keep, of) == of[d..]
  {
    if d < |of| {
      var n := |of| - 1;
      DropBelow(of[..n], keep, d);
      assert of[d..] == of[..n][d..] + [of[n]];
    } else {
      FilterNone(keep, of);
    }
  }

  lemma OfRising(rows: seq<Event>, s: string)
    requires Rising(rows)
    ensures Rising(Of(rows, s))
    ensures forall e :: e in Of(rows, s) <==> e in rows && e.stream == s
  {
    RisingFilter((e: Event) => e.stream == s, rows);
    FilterMember((e: Event) => e.stream == s, rows);
  }

  lemma BoundaryIsSnapshot(rows: seq<Event>, stream: string, before: int, maxId: Option<int>)
    ensures var b := Boundary(rows, stream, before, maxId);
            b.Some? ==> b.value in rows && Qualifies(b.value, stream, before, maxId)
  {
    FilterMember((e: Event) => Qualifies(e, stream, before, maxId), rows);
  }

  // A windowed truncate leaves a suffix of the target stream and every other
  // stream as it was.
  lemma WindowedOf(t: Table, stream: string, before: int, maxId: Option<int>, s: string)
    returns (d: nat)
    requires Rising(t.rows)
    ensures d <= |Of(t.rows, s)|
    ensures Of(Windowed(t, stream, before, maxId).rows, s) == Of(t.rows, s)[d..]
    ensures s != stream || Boundary(t.rows, stream, before, maxId).None? ==> d == 0
    ensures s == stream && Boundary(t.rows, stream, before, maxId).Some? ==>
              d < |Of(t.rows, s)| && Of(t.rows, s)[d] == Boundary(t.rows, stream, before, maxId).value
  {
    var of := Of(t.rows, s);
    OfRising(t.rows, s);
    var b := Boundary(t.rows, stream, before, maxId);
    BoundaryIsSnapshot(t.rows, stream, before, maxId);
    if b.None? {
      return 0;
    }
    WindowedFilter(t, stream, before, maxId, s);
    var keep := (e: Event) => !(e.stream == stream && e.id < b.value.id);
    if s != stream {
      FilterAll(keep, of);
      d := 0;
    } else {
      assert b.value in of;
      d :| 0 <= d < |of| && of[d] == b.value;
      DropBelow(of, keep, d);
    }
  }

  lemma WindowedFilter(t: Table, stream: string, before: int, maxId: Option<int>, s: string)
    requires Boundary(t.rows, stream, before, maxId).Some?
    ensures var b := Boundary(t.rows, stream, before, maxId).value;
            Of(Windowed(t, stream, before, maxId).rows, s)
            == Filter((e: Event) => !(e.stream == stream && e.id < b.id), Of(t.rows, s))
  {
    var b := Boundary(t.rows, stream, before, maxId).value;
    var keep := (e: Event) => !(e.stream == stream && e.id < b.id);
    var p := (e: Event) => e.stream == s;
    var both := (e: Event) => e.stream == s && !(e.stream == stream && e.id < b.id);
    FilterTwice(keep, p, both, t.rows);
    FilterTwice(p, keep, both, t.rows);
  }

  lemma WindowedValid(t: Table, stream: string, before: int, maxId: Option<int>)
    requires Valid(t)
    ensures Valid(Windowed(t, stream, before, maxId))
  {
    var t' := Windowed(t, stream, before, maxId);
    var b := Boundary(t.rows, stream, before, maxId);
    if b.Some? {
      var keep := (e: Event) => !(e.stream == stream && e.id < b.value.id);
      RisingFilter(keep, t.rows);
      FilterMember(keep, t.rows);
      forall s ensures Contiguous(Of(t'.rows, s)) {
        var d := WindowedOf(t, stream, before, maxId, s);
        assert Contiguous(Of(t.rows, s));
      }
    }
  }

  lemma FullOf(t: Table, stream: string, snapshot: Option<Value>, now: int, s: string)
    ensures Of(Full(t, stream, snapshot, now).rows, s) ==
            if s == stream then [Seed(t, stream, snapshot, now)] else Of(t.rows, s)
  {
    OfAppend(Filter((e: Event) => e.stream != stream, t.rows), [Seed(t, stream, snapshot, now)], stream, s);
    OthersOf(t.rows, stream, s);
  }

  lemma OthersOf(rows: seq<Event>, stream: string, s: string)
    ensures Of(Filter((e: Event) => e.stream != stream, rows), s) == if s == stream then [] else Of(rows, s)
  {
    var p := (e: Event) => e.stream == s;
    var both := (e: Event) => e.stream == s && e.stream != stream;
    FilterTwice((e: Event) => e.stream != stream, p, both, rows);
    if s == stream {
      FilterNone(both, rows);
    } else {
      FilterTwice(p, p, both, rows);
      FilterMember(p, rows);
      FilterAll(p, Of(rows, s));
    }
  }

  lemma FullValid(t: Table, stream: string, snapshot: Option<Value>, now: int)
    requires Valid(t)
    ensures Valid(Full(t, stream, snapshot, now))
  {
    var t' := Full(t, stream, snapshot, now);
    var kept := Filter((e: Event) => e.stream != stream, t.rows);
    RisingFilter((e: Event) => e.stream != stream, t.rows);
    FilterMember((e: Event) => e.stream != stream, t.rows);
    AppendOne(kept, Seed(t, stream, snapshot, now), t.sequence);
    forall s ensures Contiguous(Of(t'.rows, s)) {
      FullContiguous(t, stream, snapshot, now, s);
    }
  }

  lemma FullContiguous(t: Table, stream: string, snapshot: Option<Value>, now: int, s: string)
    requires Contiguous(Of(t.rows, s))
    ensures Contiguous(Of(Full(t, stream, snapshot, now).rows, s))
  {
    hide Full, Of;
    FullOf(t, stream, snapshot, now, s);
  }

  lemma AppendOne(rows: seq<Event>, e: Event, sequence: int)
    requires Rising(rows) && sequence >= 0
    requires forall x :: x in rows ==> 0 < x.id <= sequence
    requires e.id == sequence + 1
    ensures Rising(rows + [e])
    ensures forall x :: x in rows + [e] ==> 0 < x.id <= sequence + 1
  {
  }
}
