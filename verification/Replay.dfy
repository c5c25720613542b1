/** Loading a stream: the snapshot-floored read and a warm read from a cached
    checkpoint give the fold of every domain event since the stream's last
    full truncate, through any run of commits, snapshots and truncates. */
module Replay {
  import opened Seqs
  import opened Values
  import opened EventLog

  type Reducer = (Value, Event) -> Value

  // One step of the loader: a snapshot rebaselines, a tombstone is inert.
  function Apply(reduce: Reducer, state: Value, e: Event): Value {
    if e.name == SNAP then e.data
    else if e.name == TOMBSTONE then state
    else reduce(state, e)
  }

  function Load(reduce: Reducer, state: Value, events: seq<Event>): Value {
    if events == [] then state
    else
      var n := |events| - 1;
      Apply(reduce, Load(reduce, state, events[..n]), events[n])
  }

  // The fold of the domain events alone.
  function Domain(reduce: Reducer, base: Value, events: seq<Event>): Value {
    if events == [] then base
    else
      var n := |events| - 1;
      var state := Domain(reduce, base, events[..n]);
      if events[n].name in {SNAP, TOMBSTONE} then state else reduce(state, events[n])
  }

  // ---------------------------------------------------------------- runs

  datatype Op =
    | CommitOp(stream: string, msgs: seq<Message>, expected: Option<int>, now: int)
    | FullOp(stream: string, snapshot: Option<Value>, now: int)
    | WindowOp(stream: string, before: int, maxId: Option<int>)

  // All a stream has committed since its last full truncate, the state it
  // restarted from, and how many of those events are gone from the table.
  datatype History = History(base: Value, events: seq<Event>, pruned: nat)

  datatype State = State(table: Table, histories: map<string, History>)

  const INITIAL := State(Table([], 0), map[])

  function Past(init: Value, st: State, s: string): History {
    if s in st.histories then st.histories[s] else History(init, [], 0)
  }

  function Added(st: State, op: Op): seq<Event>
    requires op.CommitOp?
  {
    if Refused(st.table, op.stream, op.expected) then []
    else NewRows(st.table, op.stream, op.msgs, MaxVersion(st.table.rows, op.stream), op.now)
  }

  function Next(init: Value, st: State, op: Op): State {
    var h := Past(init, st, op.stream);
    match op
    case CommitOp(stream, msgs, expected, now) =>
      State(Commit(st.table, stream, msgs, expected, now),
            st.histories[stream := h.(events := h.events + Added(st, op))])
    case FullOp(stream, snapshot, now) =>
      State(Full(st.table, stream, snapshot, now),
            st.histories[stream := History(if snapshot.Some? then snapshot.value else init,
                                           [Seed(st.table, stream, snapshot, now)], 0)])
    case WindowOp(stream, before, maxId) =>
      var table := Windowed(st.table, stream, before, maxId);
      var gone := |Of(st.table.rows, stream)| - |Of(table.rows, stream)|;
      State(table, st.histories[stream := h.(pruned := if gone < 0 then 0 else h.pruned + gone)])
  }

  function Run(init: Value, ops: seq<Op>): State {
    if ops == [] then INITIAL
    else
      var n := |ops| - 1;
      Next(init, Run(init, ops[..n]), ops[n])
  }

  // Each committed snapshot carries the fold of the domain events before it.
  ghost predicate Honest(reduce: Reducer, init: Value, st: State, op: Op) {
    op.CommitOp? ==>
      forall i :: HonestAddition(reduce, Past(init, st, op.stream), Added(st, op), i)
  }

  ghost predicate HonestAddition(reduce: Reducer, h: History, added: seq<Event>, i: int) {
    0 <= i < |added| && added[i].name == SNAP ==>
      added[i].data == Domain(reduce, h.base, h.events + added[..i])
  }

  ghost predicate HonestRun(reduce: Reducer, init: Value, ops: seq<Op>) {
    forall i :: 0 <= i < |ops| ==> Honest(reduce, init, Run(init, ops[..i]), ops[i])
  }

  // ---------------------------------------------------------------- invariant

  // The snapshot at `k`, if there is one, carries the domain fold before it.
  ghost predicate HonestAt(reduce: Reducer, h: History, k: int) {
    0 <= k < |h.events| && h.events[k].name == SNAP ==>
      h.events[k].data == Domain(reduce, h.base, h.events[..k])
  }

  ghost predicate HonestPast(reduce: Reducer, h: History) {
    forall k :: HonestAt(reduce, h, k)
  }

  // The table holds a suffix of the history: all of it, with nothing special
  // to start from, or a tail that opens with a snapshot.
  ghost predicate Coherent(reduce: Reducer, init: Value, h: History, of: seq<Event>, sequence: int) {
    && HonestPast(reduce, h)
    && Rising(h.events)
    && (forall i :: 0 <= i < |h.events| ==> 0 < h.events[i].id <= sequence)
    && h.pruned <= |h.events|
    && of == h.events[h.pruned..]
    && (|| (h.pruned == 0 && h.base == init)
        || (h.pruned < |h.events| && h.events[h.pruned].name == SNAP))
  }

  ghost predicate Inv(reduce: Reducer, init: Value, st: State) {
    && Valid(st.table)
    && forall s :: CoherentAt(reduce, init, st, s)
  }

  ghost predicate CoherentAt(reduce: Reducer, init: Value, st: State, s: string) {
    Coherent(reduce, init, Past(init, st, s), Of(st.table.rows, s), st.table.sequence)
  }

  lemma Extend(reduce: Reducer, init: Value, h: History, of: seq<Event>, added: seq<Event>, sequence: int)
    requires Coherent(reduce, init, h, of, sequence)
    requires forall i :: 0 <= i < |added| ==> added[i].id == sequence + 1 + i
    requires sequence >= 0
    requires forall i :: HonestAddition(reduce, h, added, i)
    ensures Coherent(reduce, init, h.(events := h.events + added), of + added, sequence + |added|)
  {
    var all := h.events + added;
    forall k ensures HonestAt(reduce, h.(events := all), k) {
      assert HonestAt(reduce, h, k);
      if 0 <= k < |h.events| {
        assert all[..k] == h.events[..k];
      } else if |h.events| <= k < |all| {
        assert HonestAddition(reduce, h, added, k - |h.events|);
        assert all[..k] == h.events + added[..k - |h.events|];
      }
    }
    assert all[h.pruned..] == h.events[h.pruned..] + added;
  }

  // What a commit does to a stream's rows, its history and the sequence.
  lemma CommitShape(init: Value, st: State, op: Op, s: string)
    requires op.CommitOp?
    ensures var st', h, added := Next(init, st, op), Past(init, st, s), Added(st, op);
            && st'.table.sequence == st.table.sequence + |added|
            && Past(init, st', s) == (if s == op.stream then h.(events := h.events + added) else h)
            && Of(st'.table.rows, s) == Of(st.table.rows, s) + (if s == op.stream then added else [])
  {
    if !Refused(st.table, op.stream, op.expected) {
      CommitOf(st.table, op.stream, op.msgs, MaxVersion(st.table.rows, op.stream), op.now, s);
    }
  }

  lemma CommitKeeps(reduce: Reducer, init: Value, st: State, op: Op, s: string)
    requires CoherentAt(reduce, init, st, s) && st.table.sequence >= 0
    requires op.CommitOp? && Honest(reduce, init, st, op)
    ensures CoherentAt(reduce, init, Next(init, st, op), s)
  {
    var h, of, added, sequence := Past(init, st, s), Of(st.table.rows, s), Added(st, op), st.table.sequence;
    CommitShape(init, st, op, s);
    if s == op.stream {
      Extend(reduce, init, h, of, added, sequence);
    } else {
      assert of + [] == of;
      GrowAt(reduce, init, st, Next(init, st, op), s);
    }
  }

  lemma FullShape(init: Value, st: State, op: Op, s: string)
    requires op.FullOp?
    ensures var st' := Next(init, st, op);
            var seed := Seed(st.table, op.stream, op.snapshot, op.now);
            && st'.table.sequence == st.table.sequence + 1
            && Past(init, st', s) == (if s != op.stream then Past(init, st, s)
                                      else History(if op.snapshot.Some? then op.snapshot.value else init, [seed], 0))
            && Of(st'.table.rows, s) == (if s == op.stream then [seed] else Of(st.table.rows, s))
  {
    FullOf(st.table, op.stream, op.snapshot, op.now, s);
  }

  lemma FullKeeps(reduce: Reducer, init: Value, st: State, op: Op, s: string)
    requires CoherentAt(reduce, init, st, s) && st.table.sequence >= 0
    requires op.FullOp?
    ensures CoherentAt(reduce, init, Next(init, st, op), s)
  {
    FullShape(init, st, op, s);
    if s == op.stream {
      Restart(reduce, init, st.table, s, op.snapshot, op.now);
    } else {
      GrowAt(reduce, init, st, Next(init, st, op), s);
    }
  }

  // A stream an operation does not touch stays coherent.
  lemma GrowAt(reduce: Reducer, init: Value, st: State, st': State, s: string)
    requires CoherentAt(reduce, init, st, s) && st.table.sequence <= st'.table.sequence
    requires Past(init, st', s) == Past(init, st, s) && Of(st'.table.rows, s) == Of(st.table.rows, s)
    ensures CoherentAt(reduce, init, st', s)
  {
  }

  lemma Restart(reduce: Reducer, init: Value, t: Table, s: string, snapshot: Option<Value>, now: int)
    requires t.sequence >= 0
    ensures var seed := Seed(t, s, snapshot, now);
            Coherent(reduce, init, History(if snapshot.Some? then snapshot.value else init, [seed], 0),
                     [seed], t.sequence + 1)
  {
    var seed := Seed(t, s, snapshot, now);
    var h := History(if snapshot.Some? then snapshot.value else init, [seed], 0);
    forall k ensures HonestAt(reduce, h, k) {
      assert h.events[..0] == [];
    }
  }

  lemma WindowShape(init: Value, st: State, op: Op, s: string) returns (d: nat)
    requires op.WindowOp? && Rising(st.table.rows)
    ensures var st', of := Next(init, st, op), Of(st.table.rows, s);
            && d <= |of|
            && (d > 0 ==> d < |of| && of[d].name == SNAP)
            && st'.table.sequence == st.table.sequence
            && Past(init, st', s) == Past(init, st, s).(pruned := Past(init, st, s).pruned + d)
            && Of(st'.table.rows, s) == of[d..]
  {
    BoundaryIsSnapshot(st.table.rows, op.stream, op.before, op.maxId);
    d := WindowedOf(st.table, op.stream, op.before, op.maxId, s);
  }

  // Pruning a coherent stream up to one of its snapshots.
  lemma Prune(reduce: Reducer, init: Value, h: History, of: seq<Event>, sequence: int, d: nat)
    requires Coherent(reduce, init, h, of, sequence)
    requires d <= |of| && (d > 0 ==> d < |of| && of[d].name == SNAP)
    ensures Coherent(reduce, init, h.(pruned := h.pruned + d), of[d..], sequence)
  {
    var h' := h.(pruned := h.pruned + d);
    forall k ensures HonestAt(reduce, h', k) {
      assert HonestAt(reduce, h, k);
    }
    assert of[d..] == h.events[h.pruned + d..];
  }

  lemma WindowKeeps(reduce: Reducer, init: Value, st: State, op: Op, s: string)
    requires CoherentAt(reduce, init, st, s) && Rising(st.table.rows)
    requires op.WindowOp?
    ensures CoherentAt(reduce, init, Next(init, st, op), s)
  {
    var d := WindowShape(init, st, op, s);
    Prune(reduce, init, Past(init, st, s), Of(st.table.rows, s), st.table.sequence, d);
  }

  lemma NextKeeps(reduce: Reducer, init: Value, st: State, op: Op)
    requires Inv(reduce, init, st) && Honest(reduce, init, st, op)
    ensures Inv(reduce, init, Next(init, st, op))
  {
    NextValid(init, st, op);
    forall s ensures CoherentAt(reduce, init, Next(init, st, op), s) {
      assert CoherentAt(reduce, init, st, s);
      match op
      case CommitOp(_, _, _, _) => CommitKeeps(reduce, init, st, op, s);
      case FullOp(_, _, _) => FullKeeps(reduce, init, st, op, s);
      case WindowOp(_, _, _) => WindowKeeps(reduce, init, st, op, s);
    }
  }

  lemma NextValid(init: Value, st: State, op: Op)
    requires Valid(st.table)
    ensures Valid(Next(init, st, op).table)
  {
    match op
    case CommitOp(stream, msgs, expected, now) => AppendValid(st.table, stream, msgs, now);
    case FullOp(stream, snapshot, now) => FullValid(st.table, stream, snapshot, now);
    case WindowOp(stream, before, maxId) => WindowedValid(st.table, stream, before, maxId);
  }

  lemma {:induction false} RunKeeps(reduce: Reducer, init: Value, ops: seq<Op>)
    requires HonestRun(reduce, init, ops)
    ensures Inv(reduce, init, Run(init, ops))
  {
    if ops == [] {
    } else {
      var n := |ops| - 1;
      forall i | 0 <= i < n ensures ops[..n][..i] == ops[..i] {}
      RunKeeps(reduce, init, ops[..n]);
      NextKeeps(reduce, init, Run(init, ops[..n]), ops[n]);
    }
  }

  // ---------------------------------------------------------------- folds

  // Loading the events after `m` onto the domain fold of the first `m`.
  lemma {:induction false} LoadTail(reduce: Reducer, h: History, m: nat, n: nat)
    requires HonestPast(reduce, h) && m <= n <= |h.events|
    ensures Load(reduce, Domain(reduce, h.base, h.events[..m]), h.events[m..n])
         == Domain(reduce, h.base, h.events[..n])
  {
    if m < n {
      LoadTail(reduce, h, m, n - 1);
      assert HonestAt(reduce, h, n - 1);
      assert h.events[m..n][..n - 1 - m] == h.events[m..n - 1];
      assert h.events[..n][..n - 1] == h.events[..n - 1];
    }
  }

  // A read that opens with a snapshot does not depend on where it starts from.
  lemma {:induction false} LoadFromSnapshot(reduce: Reducer, h: History, state: Value, m: nat, n: nat)
    requires HonestPast(reduce, h) && m < n <= |h.events| && h.events[m].name == SNAP
    ensures Load(reduce, state, h.events[m..n]) == Domain(reduce, h.base, h.events[..n])
  {
    assert h.events[m..n][..n - 1 - m] == h.events[m..n - 1];
    assert h.events[..n][..n - 1] == h.events[..n - 1];
    assert HonestAt(reduce, h, n - 1);
    if m + 1 < n {
      LoadFromSnapshot(reduce, h, state, m, n - 1);
    }
  }

  lemma LoadSuffix(reduce: Reducer, init: Value, h: History, of: seq<Event>, sequence: int, m: nat)
    requires Coherent(reduce, init, h, of, sequence)
    requires h.pruned <= m <= |h.events|
    requires m == h.pruned || (m < |h.events| && h.events[m].name == SNAP)
    ensures Load(reduce, init, h.events[m..]) == Domain(reduce, h.base, h.events)
  {
    var n := |h.events|;
    assert h.events[..n] == h.events && h.events[m..n] == h.events[m..];
    if m < n && h.events[m].name == SNAP {
      LoadFromSnapshot(reduce, h, init, m, n);
    } else {
      assert h.events[..0] == [];
      LoadTail(reduce, h, 0, n);
    }
  }

  // A read bounded below by id is a suffix of the stream.
  lemma ReadFrom(rows: seq<Event>, s: string, low: int, m: nat)
    requires Rising(rows) && m <= |Of(rows, s)|
    requires forall i :: 0 <= i < |Of(rows, s)| ==> (Of(rows, s)[i].id >= low <==> m <= i)
    ensures Filter((e: Event) => e.stream == s && e.id >= low, rows) == Of(rows, s)[m..]
  {
    var late := (e: Event) => e.id >= low;
    FilterTwice((e: Event) => e.stream == s, late, (e: Event) => e.stream == s && e.id >= low, rows);
    DropBelow(Of(rows, s), late, m);
  }

  // ---------------------------------------------------------------- theorems

  ghost predicate ReadableTable(rows: seq<Event>) {
    Rising(rows) && forall e :: e in rows ==> e.id >= 0
  }

  lemma SnapshotReadAt(reduce: Reducer, init: Value, h: History, rows: seq<Event>, s: string, sequence: int)
    requires Coherent(reduce, init, h, Of(rows, s), sequence) && ReadableTable(rows)
    ensures Load(reduce, init, WithSnaps(rows, s)) == Domain(reduce, h.base, h.events)
  {
    var m := FloorIndex(rows, s);
    assert Of(rows, s)[m..] == h.events[h.pruned + m..];
    LoadSuffix(reduce, init, h, Of(rows, s), sequence, h.pruned + m);
  }

  // Where the snapshot-floored read starts: at a snapshot, or at the start.
  lemma FloorIndex(rows: seq<Event>, s: string) returns (m: nat)
    requires ReadableTable(rows)
    ensures m <= |Of(rows, s)| && WithSnaps(rows, s) == Of(rows, s)[m..]
    ensures m == 0 || (m < |Of(rows, s)| && Of(rows, s)[m].name == SNAP)
  {
    var of, f := Of(rows, s), SnapshotFloor(rows, s);
    OfRising(rows, s);
    FloorIsLatest(rows, s);
    if f == -1 {
      m := 0;
    } else {
      var b :| b in rows && b.stream == s && b.name == SNAP && b.id == f;
      assert b in of;
      m :| 0 <= m < |of| && of[m] == b;
    }
    ReadFrom(rows, s, f, m);
  }

  // The floored read, and the full read, give the fold of every domain event
  // committed since the stream's last full truncate.
  lemma SnapshotReadIsFullReplay(reduce: Reducer, init: Value, ops: seq<Op>, s: string)
    requires HonestRun(reduce, init, ops)
    ensures var st := Run(init, ops);
            var h := Past(init, st, s);
            && Load(reduce, init, WithSnaps(st.table.rows, s)) == Domain(reduce, h.base, h.events)
            && Load(reduce, init, Of(st.table.rows, s)) == Domain(reduce, h.base, h.events)
  {
    RunKeeps(reduce, init, ops);
    var st := Run(init, ops);
    assert CoherentAt(reduce, init, st, s);
    SnapshotReadAt(reduce, init, Past(init, st, s), st.table.rows, s, st.table.sequence);
    LoadSuffix(reduce, init, Past(init, st, s), Of(st.table.rows, s), st.table.sequence, Past(init, st, s).pruned);
  }

  // A cached state after the first `m` events of the history, resumed by id
  // with snapshots kept, catches up even when a windowed truncate pruned
  // events the cache had not seen.
  lemma WarmReadCatchesUp(reduce: Reducer, init: Value, ops: seq<Op>, s: string, m: nat)
    requires HonestRun(reduce, init, ops)
    requires m <= |Past(init, Run(init, ops), s).events|
    ensures var st := Run(init, ops);
            var h := Past(init, st, s);
            var cached := Domain(reduce, h.base, h.events[..m]);
            Load(reduce, cached, After(st.table.rows, s, Checkpoint(h, m))) == Domain(reduce, h.base, h.events)
  {
    RunKeeps(reduce, init, ops);
    var st := Run(init, ops);
    assert CoherentAt(reduce, init, st, s);
    WarmReadAt(reduce, init, Past(init, st, s), st.table.rows, s, st.table.sequence, m);
  }

  function Checkpoint(h: History, m: nat): int
    requires m <= |h.events|
  {
    if m == 0 then -1 else h.events[m - 1].id
  }

  // `after` with `with_snaps`: strictly past an id, snapshots kept.
  function After(rows: seq<Event>, s: string, after: int): seq<Event> {
    var low := after + 1;
    Filter((e: Event) => e.stream == s && e.id >= low, rows)
  }

  lemma WarmReadAt(reduce: Reducer, init: Value, h: History, rows: seq<Event>, s: string, sequence: int, m: nat)
    requires Coherent(reduce, init, h, Of(rows, s), sequence) && Rising(rows) && m <= |h.events|
    ensures Load(reduce, Domain(reduce, h.base, h.events[..m]), After(rows, s, Checkpoint(h, m)))
         == Domain(reduce, h.base, h.events)
  {
    var n := |h.events|;
    var from := if m <= h.pruned then h.pruned else m;
    ReadAfter(h, rows, s, m);
    assert h.events[..n] == h.events && h.events[from..n] == h.events[from..];
    if m < h.pruned {
      LoadFromSnapshot(reduce, h, Domain(reduce, h.base, h.events[..m]), h.pruned, n);
    } else {
      LoadTail(reduce, h, m, n);
    }
  }

  // The rows past a checkpoint: the events past it that are not pruned.
  lemma ReadAfter(h: History, rows: seq<Event>, s: string, m: nat)
    requires Rising(rows) && Rising(h.events) && h.pruned <= |h.events| && Of(rows, s) == h.events[h.pruned..]
    requires m <= |h.events| && forall i :: 0 <= i < |h.events| ==> 0 < h.events[i].id
    ensures After(rows, s, Checkpoint(h, m)) == h.events[if m <= h.pruned then h.pruned else m..]
  {
    var of := Of(rows, s);
    var d := if m <= h.pruned then 0 else m - h.pruned;
    forall i | 0 <= i < |of| ensures of[i].id >= Checkpoint(h, m) + 1 <==> d <= i {
      assert of[i] == h.events[h.pruned + i];
    }
    ReadFrom(rows, s, Checkpoint(h, m) + 1, d);
    assert of[d..] == h.events[h.pruned + d..];
  }

  // ---------------------------------------------------------------- invisible truncates

  // A windowed truncate changes no snapshot-floored read, no fetch from a
  // watermark at or past the cap, and no other stream.
  lemma WindowedInvisible(t: Table, stream: string, before: int, maxId: Option<int>,
                          s: string, window: Event -> bool, after: int)
    requires Valid(t)
    ensures var t' := Windowed(t, stream, before, maxId);
            && WithSnaps(t'.rows, s) == WithSnaps(t.rows, s)
            && (maxId.Some? && maxId.value <= after ==> Fetch(t'.rows, window, after) == Fetch(t.rows, window, after))
            && (s != stream ==> Of(t'.rows, s) == Of(t.rows, s))
  {
    var t' := Windowed(t, stream, before, maxId);
    var boundary := Boundary(t.rows, stream, before, maxId);
    if boundary.Some? {
      var b := boundary.value;
      BoundaryIsSnapshot(t.rows, stream, before, maxId);
      var keep := (e: Event) => !(e.stream == stream && e.id < b.id);
      if maxId.Some? && maxId.value <= after {
        var wanted := (e: Event) => window(e) && e.name != SNAP && e.id > after;
        FilterTwice(keep, wanted, wanted, t.rows);
      }
      SameFloor(t, stream, b, s);
      var f := SnapshotFloor(t.rows, s);
      FloorIsLatest(t.rows, s);
      var wanted := (e: Event) => e.stream == s && e.id >= f;
      FilterTwice(keep, wanted, wanted, t.rows);
      var d := WindowedOf(t, stream, before, maxId, s);
      assert d == 0 ==> Of(t.rows, s)[d..] == Of(t.rows, s);
    }
  }

  lemma SameFloor(t: Table, stream: string, b: Event, s: string)
    requires Valid(t) && b in t.rows && b.stream == stream && b.name == SNAP
    ensures var keep := (e: Event) => !(e.stream == stream && e.id < b.id);
            SnapshotFloor(Filter(keep, t.rows), s) == SnapshotFloor(t.rows, s)
  {
    var keep := (e: Event) => !(e.stream == stream && e.id < b.id);
    var kept := Filter(keep, t.rows);
    FilterMember(keep, t.rows);
    FloorIsLatest(t.rows, s);
    FloorIsLatest(kept, s);
    var f, f' := SnapshotFloor(t.rows, s), SnapshotFloor(kept, s);
    if f != -1 {
      var e :| e in t.rows && e.stream == s && e.name == SNAP && e.id == f;
      assert keep(e);
      assert e in kept;
    }
  }

  // Through any run, honest or not, each stream's versions are a contiguous
  // interval that rises with the id.
  lemma RunContiguous(init: Value, ops: seq<Op>, s: string)
    ensures Valid(Run(init, ops).table)
    ensures Contiguous(Of(Run(init, ops).table.rows, s)) && Rising(Of(Run(init, ops).table.rows, s))
  {
    RunValid(init, ops);
    OfRising(Run(init, ops).table.rows, s);
  }

  lemma {:induction false} RunValid(init: Value, ops: seq<Op>)
    ensures Valid(Run(init, ops).table)
  {
    if ops != [] {
      var n := |ops| - 1;
      RunValid(init, ops[..n]);
      NextValid(init, Run(init, ops[..n]), ops[n]);
    }
  }
}
