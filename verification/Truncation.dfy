/** What a truncate call does and reports: it is a run of single truncates, so
    reads survive it, and its report describes the streams as it leaves them. */
module Truncation {
  import opened Seqs
  import opened Values
  import opened EventLog
  import opened SqliteSteps
  import opened LogContents
  import Replay

  // ---------------------------------------------------------------- as a run

  function WindowOps(targets: seq<Target>): seq<Replay.Op> {
    if targets == [] then []
    else
      var n := |targets| - 1;
      WindowOps(targets[..n]) +
      if targets[n].before.None? then []
      else [Replay.WindowOp(targets[n].stream, targets[n].before.value, targets[n].maxId)]
  }

  function FullOps(targets: seq<Target>, now: int): seq<Replay.Op> {
    if targets == [] then []
    else
      var n := |targets| - 1;
      FullOps(targets[..n], now) +
      if targets[n].before.Some? then [] else [Replay.FullOp(targets[n].stream, targets[n].snapshot, now)]
  }

  lemma WindowOne(init: Value, ops: seq<Replay.Op>, s: string, before: int, maxId: Option<int>)
    ensures Replay.Run(init, ops + [Replay.WindowOp(s, before, maxId)]).table
         == Windowed(Replay.Run(init, ops).table, s, before, maxId)
  {
    assert (ops + [Replay.WindowOp(s, before, maxId)])[..|ops|] == ops;
  }

  lemma OneFull(init: Value, ops: seq<Replay.Op>, s: string, snapshot: Option<Value>, now: int)
    ensures Replay.Run(init, ops + [Replay.FullOp(s, snapshot, now)]).table
         == Full(Replay.Run(init, ops).table, s, snapshot, now)
  {
    assert (ops + [Replay.FullOp(s, snapshot, now)])[..|ops|] == ops;
  }

  lemma {:induction false} WindowsAreRun(init: Value, ops: seq<Replay.Op>, targets: seq<Target>)
    ensures Replay.Run(init, ops + WindowOps(targets)).table == WindowAll(Replay.Run(init, ops).table, targets)
  {
    hide Replay.Run, Windowed;
    if targets == [] {
      assert ops + [] == ops;
    } else {
      var n := |targets| - 1;
      var before := ops + WindowOps(targets[..n]);
      WindowsAreRun(init, ops, targets[..n]);
      if targets[n].before.Some? {
        var op := Replay.WindowOp(targets[n].stream, targets[n].before.value, targets[n].maxId);
        WindowOne(init, before, targets[n].stream, targets[n].before.value, targets[n].maxId);
        assert ops + WindowOps(targets) == before + [op];
      } else {
        assert ops + WindowOps(targets) == before;
      }
    }
  }

  lemma {:induction false} FullsAreRun(init: Value, ops: seq<Replay.Op>, targets: seq<Target>, now: int)
    ensures Replay.Run(init, ops + FullOps(targets, now)).table == FullAll(Replay.Run(init, ops).table, targets, now)
  {
    hide Replay.Run, Full;
    if targets == [] {
      assert ops + [] == ops;
    } else {
      var n := |targets| - 1;
      var before := ops + FullOps(targets[..n], now);
      FullsAreRun(init, ops, targets[..n], now);
      if targets[n].before.None? {
        var op := Replay.FullOp(targets[n].stream, targets[n].snapshot, now);
        OneFull(init, before, targets[n].stream, targets[n].snapshot, now);
        assert ops + FullOps(targets, now) == before + [op];
      } else {
        assert ops + FullOps(targets, now) == before;
      }
    }
  }

  // The whole call, on the table any run has reached.
  lemma TruncateIsRun(init: Value, ops: seq<Replay.Op>, targets: seq<Target>, now: int)
    ensures Replay.Run(init, ops + WindowOps(targets) + FullOps(targets, now)).table
         == FullAll(WindowAll(Replay.Run(init, ops).table, targets), targets, now)
  {
    WindowsAreRun(init, ops, targets);
    FullsAreRun(init, ops + WindowOps(targets), targets, now);
  }

  lemma {:induction false} NoCommits(targets: seq<Target>, now: int)
    ensures forall op :: op in WindowOps(targets) ==> !op.CommitOp?
    ensures forall op :: op in FullOps(targets, now) ==> !op.CommitOp?
  {
    if targets != [] {
      NoCommits(targets[..|targets| - 1], now);
    }
  }

  lemma StaysHonest(reduce: Replay.Reducer, init: Value, ops: seq<Replay.Op>, more: seq<Replay.Op>)
    requires Replay.HonestRun(reduce, init, ops) && forall op :: op in more ==> !op.CommitOp?
    ensures Replay.HonestRun(reduce, init, ops + more)
  {
    var all := ops + more;
    forall i | 0 <= i < |all| ensures Replay.Honest(reduce, init, Replay.Run(init, all[..i]), all[i]) {
      if i < |ops| {
        assert all[..i] == ops[..i] && all[i] == ops[i];
      } else {
        assert all[i] == more[i - |ops|] && all[i] in more;
      }
    }
  }

  // Reads of the table a truncate call leaves are still full replays.
  lemma TruncatedReads(reduce: Replay.Reducer, init: Value, ops: seq<Replay.Op>, targets: seq<Target>, now: int, s: string)
    requires Replay.HonestRun(reduce, init, ops)
    ensures var rows := FullAll(WindowAll(Replay.Run(init, ops).table, targets), targets, now).rows;
            var h := Replay.Past(init, Replay.Run(init, ops + WindowOps(targets) + FullOps(targets, now)), s);
            Replay.Load(reduce, init, WithSnaps(rows, s)) == Replay.Domain(reduce, h.base, h.events)
  {
    NoCommits(targets, now);
    StaysHonest(reduce, init, ops, WindowOps(targets));
    StaysHonest(reduce, init, ops + WindowOps(targets), FullOps(targets, now));
    TruncateIsRun(init, ops, targets, now);
    Replay.SnapshotReadIsFullReplay(reduce, init, ops + WindowOps(targets) + FullOps(targets, now), s);
  }

  // ---------------------------------------------------------------- the report

  predicate DistinctTargets(targets: seq<Target>) {
    forall i, j :: 0 <= i < j < |targets| ==> targets[i].stream != targets[j].stream
  }

  // Dropping rows of one stream drops as many from the table as from it.
  lemma CountDropped(rows: seq<Event>, keep: Event -> bool, s: string)
    requires forall e :: e in rows && e.stream != s ==> keep(e)
    ensures |rows| - |Filter(keep, rows)| == |Of(rows, s)| - |Filter(keep, Of(rows, s))|
  {
    FilterWithin((e: Event) => e.stream == s, keep, rows);
  }

  lemma BoundaryOf(rows: seq<Event>, s: string, before: int, maxId: Option<int>)
    ensures Boundary(rows, s, before, maxId) == Boundary(Of(rows, s), s, before, maxId)
  {
    var q := (e: Event) => Qualifies(e, s, before, maxId);
    FilterTwice((e: Event) => e.stream == s, q, q, rows);
  }

  lemma WindowDropped(t: Table, s: string, before: int, maxId: Option<int>)
    requires Rising(t.rows) && Boundary(t.rows, s, before, maxId).Some?
    ensures var t' := Windowed(t, s, before, maxId);
            && |t.rows| - |t'.rows| == |Of(t.rows, s)| - |Of(t'.rows, s)|
            && Of(t'.rows, s) != [] && Of(t'.rows, s)[0] == Boundary(t.rows, s, before, maxId).value
  {
    var b := Boundary(t.rows, s, before, maxId).value;
    CountDropped(t.rows, (e: Event) => !(e.stream == s && e.id < b.id), s);
    WindowedFilter(t, s, before, maxId, s);
    var d := WindowedOf(t, s, before, maxId, s);
  }

  lemma FullDropped(t: Table, s: string, snapshot: Option<Value>, now: int)
    ensures |t.rows| + 1 - |Full(t, s, snapshot, now).rows| == |Of(t.rows, s)|
  {
    var keep := (e: Event) => e.stream != s;
    CountDropped(t.rows, keep, s);
    FilterMember((e: Event) => e.stream == s, t.rows);
    assert forall i :: 0 <= i < |Of(t.rows, s)| ==> Of(t.rows, s)[i] in Of(t.rows, s);
    FilterNone(keep, Of(t.rows, s));
  }

  lemma {:induction false} WindowElsewhere(t: Table, targets: seq<Target>, s: string)
    requires Valid(t) && forall k :: 0 <= k < |targets| && targets[k].before.Some? ==> targets[k].stream != s
    ensures Of(WindowAll(t, targets).rows, s) == Of(t.rows, s) && s !in WindowReport(t, targets)
  {
    if targets != [] {
      var n := |targets| - 1;
      WindowElsewhere(t, targets[..n], s);
      WindowAllValid(t, targets[..n]);
      if targets[n].before.Some? {
        var d := WindowedOf(WindowAll(t, targets[..n]), targets[n].stream, targets[n].before.value, targets[n].maxId, s);
      }
    }
  }

  lemma {:induction false} FullElsewhere(t: Table, targets: seq<Target>, now: int, s: string)
    requires forall k :: 0 <= k < |targets| && targets[k].before.None? ==> targets[k].stream != s
    ensures Of(FullAll(t, targets, now).rows, s) == Of(t.rows, s) && s !in FullReport(t, targets, now)
  {
    if targets != [] {
      var n := |targets| - 1;
      FullElsewhere(t, targets[..n], now, s);
      if targets[n].before.None? {
        FullOf(FullAll(t, targets[..n], now), targets[n].stream, targets[n].snapshot, now, s);
      }
    }
  }

  // A windowed entry: how many of the stream's rows are gone, the snapshot it
  // now starts with -- the latest safe cut -- and the cutoff; absent, and the
  // stream as it was, when there is no safe cut.
  ghost predicate WindowEntry(t: Table, target: Target, report: map<string, Truncated>, after: seq<Event>)
    requires target.before.Some?
  {
    var s, of, before, maxId := target.stream, Of(t.rows, target.stream), target.before.value, target.maxId;
    if NoCut(t.rows, s, before, maxId) then s !in report && after == of
    else
      && s in report && after != []
      && report[s] == Truncated(|of| - |after|, after[0], target.before)
      && LatestCut(t.rows, report[s].committed, s, before, maxId)
  }

  lemma {:induction false} WindowTarget(t: Table, targets: seq<Target>, k: nat)
    requires Valid(t) && DistinctTargets(targets) && k < |targets| && targets[k].before.Some?
    ensures WindowEntry(t, targets[k], WindowReport(t, targets), Of(WindowAll(t, targets).rows, targets[k].stream))
  {
    var n, s := |targets| - 1, targets[k].stream;
    var before := WindowAll(t, targets[..n]);
    WindowAllValid(t, targets[..n]);
    if k == n {
      var cutoff, maxId := targets[k].before.value, targets[k].maxId;
      WindowElsewhere(t, targets[..n], s);
      BoundaryOf(t.rows, s, cutoff, maxId);
      BoundaryOf(before.rows, s, cutoff, maxId);
      BoundaryIsLatest(t.rows, s, cutoff, maxId);
      if Boundary(t.rows, s, cutoff, maxId).Some? {
        WindowDropped(before, s, cutoff, maxId);
      }
    } else {
      assert targets[..n][k] == targets[k];
      WindowTarget(t, targets[..n], k);
      assert targets[k].stream != targets[n].stream;
      if targets[n].before.Some? {
        var d := WindowedOf(before, targets[n].stream, targets[n].before.value, targets[n].maxId, s);
      }
    }
  }

  // A full entry: all of the stream's rows are gone, and the seed is all it has.
  ghost predicate FullEntry(t: Table, target: Target, report: map<string, Truncated>, after: seq<Event>, now: int) {
    var s := target.stream;
    && s in report && report[s].deleted == |Of(t.rows, s)| && report[s].before.None?
    && after == [report[s].committed]
    && var seed := report[s].committed;
       && seed.stream == s && seed.version == 0 && seed.created == now
       && (match target.snapshot
           case Some(state) => seed.name == "__snapshot__" && seed.data == state
           case None => seed.name == "__tombstone__" && seed.data == EMPTY)
  }

  lemma {:induction false} FullTarget(t: Table, targets: seq<Target>, now: int, k: nat)
    requires DistinctTargets(targets) && k < |targets| && targets[k].before.None?
    ensures FullEntry(t, targets[k], FullReport(t, targets, now), Of(FullAll(t, targets, now).rows, targets[k].stream), now)
  {
    var n := |targets| - 1;
    if k == n {
      FullLast(t, targets, now);
    } else {
      hide Full, Of, FullAll, FullReport;
      assert targets[..n][k] == targets[k] && targets[k].stream != targets[n].stream;
      FullTarget(t, targets[..n], now, k);
      FullNext(t, targets, now, targets[k].stream);
    }
  }

  lemma FullLast(t: Table, targets: seq<Target>, now: int)
    requires DistinctTargets(targets) && targets != [] && targets[|targets| - 1].before.None?
    ensures var target := targets[|targets| - 1];
            FullEntry(t, target, FullReport(t, targets, now), Of(FullAll(t, targets, now).rows, target.stream), now)
  {
    hide Full, Of;
    var n := |targets| - 1;
    var before, target := FullAll(t, targets[..n], now), targets[n];
    FullElsewhere(t, targets[..n], now, target.stream);
    FullDropped(before, target.stream, target.snapshot, now);
    FullOf(before, target.stream, target.snapshot, now, target.stream);
  }

  // The last target leaves other streams and their entries alone.
  lemma FullNext(t: Table, targets: seq<Target>, now: int, s: string)
    requires targets != [] && targets[|targets| - 1].stream != s
    ensures var n := |targets| - 1;
            && Of(FullAll(t, targets, now).rows, s) == Of(FullAll(t, targets[..n], now).rows, s)
            && (s in FullReport(t, targets, now) <==> s in FullReport(t, targets[..n], now))
            && (s in FullReport(t, targets, now) ==> FullReport(t, targets, now)[s] == FullReport(t, targets[..n], now)[s])
  {
    var target := targets[|targets| - 1];
    if target.before.None? {
      FullOf(FullAll(t, targets[..|targets| - 1], now), target.stream, target.snapshot, now, s);
    }
  }

  // What `truncate` returns for distinct targets, against the tables before
  // and after: one entry per full target and per windowed target with a
  // boundary, and nothing else touched.
  lemma ReportMeans(t: Table, targets: seq<Target>, now: int)
    requires Valid(t) && DistinctTargets(targets)
    ensures var w := WindowAll(t, targets);
            var report := WindowReport(t, targets) + FullReport(w, targets, now);
            var end := FullAll(w, targets, now).rows;
            && (forall k :: 0 <= k < |targets| ==>
                  if targets[k].before.Some? then WindowEntry(t, targets[k], report, Of(end, targets[k].stream))
                  else FullEntry(t, targets[k], report, Of(end, targets[k].stream), now))
            && (forall s :: (forall k :: 0 <= k < |targets| ==> targets[k].stream != s) ==>
                  s !in report && Of(end, s) == Of(t.rows, s))
  {
    var w := WindowAll(t, targets);
    var report := WindowReport(t, targets) + FullReport(w, targets, now);
    var end := FullAll(w, targets, now).rows;
    forall k | 0 <= k < |targets|
      ensures if targets[k].before.Some? then WindowEntry(t, targets[k], report, Of(end, targets[k].stream))
              else FullEntry(t, targets[k], report, Of(end, targets[k].stream), now)
    {
      var s := targets[k].stream;
      assert forall j :: 0 <= j < |targets| && targets[j].stream == s ==> j == k;
      if targets[k].before.Some? {
        WindowTarget(t, targets, k);
        FullElsewhere(w, targets, now, s);
      } else {
        WindowElsewhere(t, targets, s);
        FullTarget(w, targets, now, k);
      }
    }
    forall s | (forall k :: 0 <= k < |targets| ==> targets[k].stream != s)
      ensures s !in report && Of(end, s) == Of(t.rows, s)
    {
      WindowElsewhere(t, targets, s);
      FullElsewhere(w, targets, now, s);
    }
  }
}
