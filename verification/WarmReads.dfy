/** A warm read resumes a cached state from its checkpoint. Taken at any point
    of a run, the cache catches up at any later one -- unless a tombstone has
    since restarted the stream and nothing has rebaselined it. */
module WarmReads {
  import opened Seqs
  import opened Values
  import opened EventLog
  import opened Replay

  // The stream was truncated in full at or after step `i`.
  predicate Restarts(ops: seq<Op>, i: nat, s: string) {
    exists k :: i <= k < |ops| && ops[k].FullOp? && ops[k].stream == s
  }

  // The later history goes on from the earlier one, or all of it is newer.
  ghost predicate Grown(early: History, late: History, sequence: int, restarted: bool) {
    if restarted then late.events != [] && forall e :: e in late.events ==> e.id > sequence
    else late.base == early.base && early.events <= late.events
  }

  lemma HonestPrefix(reduce: Reducer, init: Value, ops: seq<Op>, n: nat)
    requires HonestRun(reduce, init, ops) && n <= |ops|
    ensures HonestRun(reduce, init, ops[..n])
  {
    forall i | 0 <= i < n ensures ops[..n][..i] == ops[..i] {}
  }

  lemma {:induction false} HistoryGrows(reduce: Reducer, init: Value, ops: seq<Op>, i: nat, s: string)
    requires HonestRun(reduce, init, ops) && i <= |ops|
    ensures var st, st' := Run(init, ops[..i]), Run(init, ops);
            && st.table.sequence <= st'.table.sequence
            && Grown(Past(init, st, s), Past(init, st', s), st.table.sequence, Restarts(ops, i, s))
  {
    if i == |ops| {
      assert ops[..i] == ops;
    } else {
      var n := |ops| - 1;
      HonestPrefix(reduce, init, ops, n);
      HistoryGrows(reduce, init, ops[..n], i, s);
      assert ops[..n][..i] == ops[..i];
      RestartsSnoc(ops, i, s);
      HistoryStep(init, Run(init, ops[..i]), Run(init, ops[..n]), ops[n], Restarts(ops[..n], i, s), s);
    }
  }

  lemma RestartsSnoc(ops: seq<Op>, i: nat, s: string)
    requires i < |ops|
    ensures var n := |ops| - 1;
            Restarts(ops, i, s) <==> Restarts(ops[..n], i, s) || (ops[n].FullOp? && ops[n].stream == s)
  {
    var n := |ops| - 1;
    if k :| i <= k < n && ops[..n][k].FullOp? && ops[..n][k].stream == s {
      assert ops[k].FullOp?;
    }
    if k :| i <= k < |ops| && ops[k].FullOp? && ops[k].stream == s {
      assert k < n ==> ops[..n][k] == ops[k];
    }
  }

  lemma HistoryStep(init: Value, early: State, st: State, op: Op, restarted: bool, s: string)
    requires early.table.sequence <= st.table.sequence
    requires Grown(Past(init, early, s), Past(init, st, s), early.table.sequence, restarted)
    ensures var st' := Next(init, st, op);
            && early.table.sequence <= st'.table.sequence
            && Grown(Past(init, early, s), Past(init, st', s), early.table.sequence,
                     restarted || (op.FullOp? && op.stream == s))
  {
    hide Grown, Next;
    match op
    case CommitOp(_, _, _, _) => CommitStep(init, early, st, op, restarted, s);
    case FullOp(_, _, _) => FullStep(init, early, st, op, restarted, s);
    case WindowOp(_, _, _) => WindowStep(init, early, st, op, restarted, s);
  }

  lemma CommitStep(init: Value, early: State, st: State, op: Op, restarted: bool, s: string)
    requires op.CommitOp? && early.table.sequence <= st.table.sequence
    requires Grown(Past(init, early, s), Past(init, st, s), early.table.sequence, restarted)
    ensures var st' := Next(init, st, op);
            && early.table.sequence <= st'.table.sequence
            && Grown(Past(init, early, s), Past(init, st', s), early.table.sequence, restarted)
  {
    hide Grown, Next;
    CommitShape(init, st, op, s);
    if s == op.stream {
      CommitGrows(Past(init, early, s), Past(init, st, s), Added(st, op), early.table.sequence, restarted);
    }
  }

  lemma FullStep(init: Value, early: State, st: State, op: Op, restarted: bool, s: string)
    requires op.FullOp? && early.table.sequence <= st.table.sequence
    requires Grown(Past(init, early, s), Past(init, st, s), early.table.sequence, restarted)
    ensures var st' := Next(init, st, op);
            && early.table.sequence <= st'.table.sequence
            && Grown(Past(init, early, s), Past(init, st', s), early.table.sequence, restarted || op.stream == s)
  {
    hide Next;
    FullShape(init, st, op, s);
  }

  lemma WindowStep(init: Value, early: State, st: State, op: Op, restarted: bool, s: string)
    requires op.WindowOp? && early.table.sequence <= st.table.sequence
    requires Grown(Past(init, early, s), Past(init, st, s), early.table.sequence, restarted)
    ensures var st' := Next(init, st, op);
            && early.table.sequence <= st'.table.sequence
            && Grown(Past(init, early, s), Past(init, st', s), early.table.sequence, restarted)
  {
  }

  lemma CommitGrows(early: History, late: History, added: seq<Event>, sequence: int, restarted: bool)
    requires Grown(early, late, sequence, restarted)
    requires forall i :: 0 <= i < |added| ==> added[i].id > sequence
    ensures Grown(early, late.(events := late.events + added), sequence, restarted)
  {
  }

  lemma {:induction false} LoadAppend(reduce: Reducer, state: Value, a: seq<Event>, b: seq<Event>)
    ensures Load(reduce, state, a + b) == Load(reduce, Load(reduce, state, a), b)
  {
    if b == [] {
      assert a + b == a;
    } else {
      var n := |b| - 1;
      assert (a + b)[..|a| + n] == a + b[..n] && (a + b)[|a| + n] == b[n];
      LoadAppend(reduce, state, a, b[..n]);
    }
  }

  predicate HasSnapshot(events: seq<Event>) {
    exists e :: e in events && e.name == SNAP
  }

  // Past a snapshot, a read does not depend on the state it starts from.
  lemma LoadPastSnapshot(reduce: Reducer, h: History, state: Value, from: nat, q: nat)
    requires HonestPast(reduce, h) && from <= q < |h.events| && h.events[q].name == SNAP
    ensures Load(reduce, state, h.events[from..]) == Domain(reduce, h.base, h.events)
  {
    var n := |h.events|;
    LoadAppend(reduce, state, h.events[from..q], h.events[q..n]);
    LoadFromSnapshot(reduce, h, Load(reduce, state, h.events[from..q]), q, n);
    assert h.events[from..q] + h.events[q..n] == h.events[from..] && h.events[..n] == h.events;
  }

  lemma {:induction false} LoadPlain(reduce: Reducer, state: Value, events: seq<Event>)
    requires !HasSnapshot(events)
    ensures Load(reduce, state, events) == Domain(reduce, state, events)
  {
    if events != [] {
      var n := |events| - 1;
      assert events[n] in events && forall e :: e in events[..n] ==> e in events;
      LoadPlain(reduce, state, events[..n]);
    }
  }

  // A history that does not start from the initial state holds the snapshot
  // that restarted it.
  lemma {:induction false} TombstoneBase(reduce: Reducer, init: Value, ops: seq<Op>, s: string)
    ensures var h := Past(init, Run(init, ops), s);
            h.base != init ==> HasSnapshot(h.events)
  {
    if ops != [] {
      var n := |ops| - 1;
      var st, op := Run(init, ops[..n]), ops[n];
      TombstoneBase(reduce, init, ops[..n], s);
      match op
      case CommitOp(_, _, _, _) =>
        CommitShape(init, st, op, s);
        var h, added := Past(init, st, s), Added(st, op);
        assert forall e :: e in h.events ==> e in h.events + added;
      case FullOp(_, _, _) =>
        FullShape(init, st, op, s);
        var seed := Seed(st.table, op.stream, op.snapshot, op.now);
        assert seed in [seed];
      case WindowOp(_, _, _) =>
    }
  }

  lemma AfterRestart(reduce: Reducer, init: Value, h: History, rows: seq<Event>, s: string, sequence: int,
                     cached: Value, checkpoint: int)
    requires Coherent(reduce, init, h, Of(rows, s), sequence) && Rising(rows)
    requires forall e :: e in h.events ==> e.id > checkpoint
    requires h.base != init ==> HasSnapshot(h.events)
    ensures var warm := Load(reduce, cached, After(rows, s, checkpoint));
            warm == Domain(reduce, h.base, h.events) <==>
            HasSnapshot(h.events) || Domain(reduce, cached, h.events) == Domain(reduce, init, h.events)
  {
    AllLater(h, rows, s, checkpoint);
    assert h.pruned < |h.events| ==> h.events[h.pruned] in h.events;
    if HasSnapshot(h.events) {
      Rebaselined(reduce, h, cached);
    } else {
      assert h.pruned == 0;
      assert h.events[0..] == h.events;
      LoadPlain(reduce, cached, h.events);
    }
  }

  lemma AllLater(h: History, rows: seq<Event>, s: string, checkpoint: int)
    requires Rising(rows) && h.pruned <= |h.events| && Of(rows, s) == h.events[h.pruned..]
    requires forall e :: e in h.events ==> e.id > checkpoint
    ensures After(rows, s, checkpoint) == h.events[h.pruned..]
  {
    var of := Of(rows, s);
    forall k | 0 <= k < |of| ensures of[k].id >= checkpoint + 1 <==> 0 <= k {
      assert of[k] == h.events[h.pruned + k] && h.events[h.pruned + k] in h.events;
    }
    ReadFrom(rows, s, checkpoint + 1, 0);
    assert of[0..] == of;
  }

  lemma Rebaselined(reduce: Reducer, h: History, cached: Value)
    requires HonestPast(reduce, h) && HasSnapshot(h.events) && h.pruned <= |h.events|
    requires h.pruned == 0 || (h.pruned < |h.events| && h.events[h.pruned].name == SNAP)
    ensures Load(reduce, cached, h.events[h.pruned..]) == Domain(reduce, h.base, h.events)
  {
    var e :| e in h.events && e.name == SNAP;
    var k :| 0 <= k < |h.events| && h.events[k] == e;
    LoadPastSnapshot(reduce, h, cached, h.pruned, if h.pruned <= k then k else h.pruned);
  }

  // A state cached after the first `m` events of the stream as it was at step
  // `i`, resumed at the end of the run. Without a full truncate of the stream
  // in between it catches up. After one, it does exactly when some snapshot
  // rebaselines it or the cached state folds on to the same as the initial one;
  // when all there is is the tombstone, when it is the initial state.
  lemma WarmReadExactly(reduce: Reducer, init: Value, ops: seq<Op>, i: nat, s: string, m: nat)
    requires HonestRun(reduce, init, ops) && i <= |ops|
    requires m <= |Past(init, Run(init, ops[..i]), s).events|
    ensures var early, st := Past(init, Run(init, ops[..i]), s), Run(init, ops);
            var h := Past(init, st, s);
            var cached := Domain(reduce, early.base, early.events[..m]);
            var warm := Load(reduce, cached, After(st.table.rows, s, Checkpoint(early, m)));
            var right := Domain(reduce, h.base, h.events);
            && (!Restarts(ops, i, s) ==> warm == right)
            && (Restarts(ops, i, s) ==>
                  (warm == right <==>
                   HasSnapshot(h.events) || Domain(reduce, cached, h.events) == Domain(reduce, init, h.events)))
            && (Restarts(ops, i, s) && cached == init ==> warm == right)
            && (Restarts(ops, i, s) && |h.events| == 1 && h.events[0].name == TOMBSTONE ==>
                  (warm == right <==> cached == init))
  {
    HistoryGrows(reduce, init, ops, i, s);
    if Restarts(ops, i, s) {
      HonestPrefix(reduce, init, ops, i);
      RunKeeps(reduce, init, ops[..i]);
      RunKeeps(reduce, init, ops);
      TombstoneBase(reduce, init, ops, s);
      var early, st := Past(init, Run(init, ops[..i]), s), Run(init, ops);
      var cached := Domain(reduce, early.base, early.events[..m]);
      assert CoherentAt(reduce, init, Run(init, ops[..i]), s) && CoherentAt(reduce, init, st, s);
      AfterRestart(reduce, init, Past(init, st, s), st.table.rows, s, st.table.sequence, cached, Checkpoint(early, m));
      OnlyTombstone(reduce, cached, init, Past(init, st, s).events);
    } else {
      assert Past(init, Run(init, ops), s).events[..m] == Past(init, Run(init, ops[..i]), s).events[..m];
      WarmReadCatchesUp(reduce, init, ops, s, m);
    }
  }

  lemma OnlyTombstone(reduce: Reducer, a: Value, b: Value, events: seq<Event>)
    ensures |events| == 1 && events[0].name == TOMBSTONE ==>
              !HasSnapshot(events) && Domain(reduce, a, events) == a && Domain(reduce, b, events) == b
  {
    if |events| == 1 {
      assert events[..0] == [];
    }
  }

  // Past a tombstone no snapshot has followed, a reader that knows nothing of
  // the reducer may rely on a cached state exactly when it is the initial one.
  lemma WarmForAnyReducer(cached: Value, init: Value, events: seq<Event>)
    requires !HasSnapshot(events)
    ensures (forall reduce: Reducer :: Load(reduce, cached, events) == Domain(reduce, init, events)) <==> cached == init
  {
    forall reduce: Reducer ensures cached == init ==> Load(reduce, cached, events) == Domain(reduce, init, events) {
      LoadPlain(reduce, cached, events);
    }
    var ignore: Reducer := (state, e) => state;
    Ignored(ignore, cached, events);
    Ignored(ignore, init, events);
    LoadPlain(ignore, cached, events);
  }

  lemma {:induction false} Ignored(reduce: Reducer, state: Value, events: seq<Event>)
    requires forall v, e :: reduce(v, e) == v
    ensures Domain(reduce, state, events) == state
  {
    if events != [] {
      Ignored(reduce, state, events[..|events| - 1]);
    }
  }

  // One event is committed and the state after it cached; the stream is then
  // retired. The warm read still gives the cached state.
  predicate Retired(ops: seq<Op>, msg: Message) {
    |ops| == 2 && ops[0] == CommitOp("s", [msg], None, 0) && ops[1] == FullOp("s", None, 0)
  }

  // The read at the end of a run, from the state cached after the first `m`
  // events there were at step `i`, is not the fold it stands in for.
  ghost predicate ReadsWrong(reduce: Reducer, init: Value, ops: seq<Op>, i: nat, s: string, m: nat)
    requires i <= |ops|
  {
    var early, st := Past(init, Run(init, ops[..i]), s), Run(init, ops);
    m <= |early.events| &&
    Load(reduce, Domain(reduce, early.base, early.events[..m]), After(st.table.rows, s, Checkpoint(early, m)))
      != Domain(reduce, Past(init, st, s).base, Past(init, st, s).events)
  }

  lemma TombstoneLeavesCacheStale(reduce: Reducer, init: Value, msg: Message, ops: seq<Op>)
    requires msg.name !in {SNAP, TOMBSTONE} && Retired(ops, msg)
    requires reduce(init, Event(1, "s", 0, msg.name, msg.data, 0)) != init
    ensures HonestRun(reduce, init, ops) && Restarts(ops, 1, "s")
    ensures ReadsWrong(reduce, init, ops, 1, "s", 1)
  {
    RetiredCommit(init, msg, ops);
    RetiredHonest(reduce, init, msg, ops);
    var e := Event(1, "s", 0, msg.name, msg.data, 0);
    assert [e][..0] == [] && [e][..1] == [e];
    assert Domain(reduce, init, [e]) == reduce(init, e);
    assert ops[1].FullOp? && ops[1].stream == "s";
    RetiredEnd(init, msg, ops);
    WarmReadExactly(reduce, init, ops, 1, "s", 1);
  }

  lemma RetiredCommit(init: Value, msg: Message, ops: seq<Op>)
    requires Retired(ops, msg)
    ensures Past(init, Run(init, ops[..1]), "s") == History(init, [Event(1, "s", 0, msg.name, msg.data, 0)], 0)
  {
    assert ops[..1] == [ops[0]] && [ops[0]][..0] == [];
    assert Added(INITIAL, ops[0]) == [Event(1, "s", 0, msg.name, msg.data, 0)];
    CommitShape(init, INITIAL, ops[0], "s");
  }

  lemma RetiredEnd(init: Value, msg: Message, ops: seq<Op>)
    requires Retired(ops, msg)
    ensures var h := Past(init, Run(init, ops), "s");
            |h.events| == 1 && h.events[0].name == TOMBSTONE
  {
    FullShape(init, Run(init, ops[..1]), ops[1], "s");
  }

  lemma RetiredHonest(reduce: Reducer, init: Value, msg: Message, ops: seq<Op>)
    requires Retired(ops, msg) && msg.name != SNAP
    ensures HonestRun(reduce, init, ops)
  {
    forall i | 0 <= i < |ops| ensures Honest(reduce, init, Run(init, ops[..i]), ops[i]) {
      if i == 0 {
        assert ops[..0] == [];
        assert Added(INITIAL, ops[0]) == [Event(1, "s", 0, msg.name, msg.data, 0)];
      }
    }
  }
}
