/** The SQLite store: every operation is one write transaction over tables
    updated in place. Each method is proved against the specification functions
    of the modules it imports; the laws are proved there. */
module SqliteStore {
  import opened Seqs
  import opened SqliteSteps
  import opened StreamFilters
  import Log = EventLog
  import Sub = Subscriptions
  import Cor = Correlator
  import Selection = ClaimSelection
  import Fairness
  import StreamPattern
  import WorkMark

  class SqliteStore {
    var events: seq<Log.Event>
    var sequence: int
    var streams: Sub.Table
    var correlated: Cor.Checkpoints

    ghost function Events(): Log.Table
      reads this
    {
      Log.Table(events, sequence)
    }

    ghost predicate Valid()
      reads this
    {
      Log.Valid(Events()) && Sub.Paired(streams) && Cor.UnderShared(correlated)
    }

    constructor Seed()
      ensures Valid()
      ensures events == [] && sequence == 0 && streams == map[] && correlated == Cor.SEEDED
    {
      events, sequence, streams, correlated := [], 0, map[], Cor.SEEDED;
    }

    // -------------------------------------------------------------- events

    method Head(stream: string) returns (v: int)
      ensures v == Log.MaxVersion(events, stream)
    {
      v := -1;
      for i := 0 to |events|
        invariant v == Log.MaxVersion(events[..i], stream)
      {
        assert events[..i + 1][..i] == events[..i];
        if events[i].stream == stream && events[i].version > v {
          v := events[i].version;
        }
      }
      assert events[..|events|] == events;
    }

    // One row per message, versions counting up from the head; a mismatched
    // expected version leaves the table as it was.
    method Commit(stream: string, msgs: seq<Log.Message>, expected: Option<int>, now: int)
      returns (r: Log.CommitResult)
      requires Valid()
      modifies this`events, this`sequence
      ensures Valid()
      ensures Events() == Log.Commit(old(Events()), stream, msgs, expected, now)
      ensures if Log.Refused(old(Events()), stream, expected)
              then r == Log.ConcurrencyError(stream, Log.MaxVersion(old(events), stream), expected.value)
              else r.Committed? && events == old(events) + r.events && |r.events| == |msgs|
      ensures r.Committed? <==> (expected.Some? ==> expected.value == Log.MaxVersion(old(events), stream))
      ensures r.Committed? ==> forall k :: 0 <= k < |msgs| ==>
                && r.events[k].id == old(sequence) + 1 + k && r.events[k].created == now
                && r.events[k].stream == stream && r.events[k].version == Log.MaxVersion(old(events), stream) + 1 + k
                && r.events[k].name == msgs[k].name && r.events[k].data == msgs[k].data
    {
      var current := Head(stream);
      if expected.Some? && current != expected.value {
        return Log.ConcurrencyError(stream, current, expected.value);
      }
      ghost var t := Events();
      Log.AppendValid(t, stream, msgs, now);
      ghost var rows := Log.NewRows(t, stream, msgs, current, now);
      var version := current + 1;
      var committed: seq<Log.Event> := [];
      for i := 0 to |msgs|
        invariant version == current + 1 + i && sequence == t.sequence + i
        invariant committed == rows[..i]
        invariant events == t.rows + committed
      {
        sequence := sequence + 1;
        var e := Log.Event(sequence, stream, version, msgs[i].name, msgs[i].data, now);
        assert e == rows[i];
        assert t.rows + committed + [e] == t.rows + (committed + [e]);
        events := events + [e];
        committed := committed + [e];
        version := version + 1;
      }
      assert rows[..|msgs|] == rows;
      r := Log.Committed(committed);
    }

    // A `with_snaps` load of one stream.
    method Load(stream: string) returns (r: seq<Log.Event>)
      ensures r == Log.WithSnaps(events, stream)
    {
      var floor := -1;
      for i := 0 to |events|
        invariant floor == Log.SnapshotFloor(events[..i], stream)
      {
        assert events[..i + 1][..i] == events[..i];
        if events[i].stream == stream && events[i].name == Log.SNAP && events[i].id > floor {
          floor := events[i].id;
        }
      }
      assert events[..|events|] == events;
      r := [];
      for i := 0 to |events|
        invariant r == Filter((e: Log.Event) => e.stream == stream && e.id >= floor, events[..i])
      {
        assert events[..i + 1][..i] == events[..i];
        if events[i].stream == stream && events[i].id >= floor {
          r := r + [events[i]];
        }
      }
    }

    // Windowed targets first, then the full ones; subscriptions untouched.
    method Truncate(targets: seq<Log.Target>, now: int) returns (result: map<string, Truncated>)
      requires Valid()
      modifies this`events, this`sequence
      ensures Valid()
      ensures Events() == FullAll(WindowAll(old(Events()), targets), targets, now)
      ensures result == WindowReport(old(Events()), targets)
                        + FullReport(WindowAll(old(Events()), targets), targets, now)
    {
      WindowAllValid(Events(), targets);
      FullAllValid(WindowAll(Events(), targets), targets, now);
      var windowed := TruncateWindows(targets);
      var full := TruncateFull(targets, now);
      result := windowed + full;
    }

    method TruncateWindows(targets: seq<Log.Target>) returns (report: map<string, Truncated>)
      modifies this`events
      ensures Events() == WindowAll(old(Events()), targets)
      ensures report == WindowReport(old(Events()), targets)
    {
      report := map[];
      ghost var t := Events();
      for i := 0 to |targets|
        invariant Events() == WindowAll(t, targets[..i])
        invariant report == WindowReport(t, targets[..i])
      {
        assert targets[..i + 1][..i] == targets[..i];
        var target := targets[i];
        if target.before.Some? {
          var boundary := Log.Boundary(events, target.stream, target.before.value, target.maxId);
          if boundary.Some? {
            var stream, id := target.stream, boundary.value.id;
            var kept := Filter((e: Log.Event) => !(e.stream == stream && e.id < id), events);
            assert kept == Log.Windowed(Events(), target.stream, target.before.value, target.maxId).rows;
            report := report[stream := Truncated(|events| - |kept|, boundary.value, target.before)];
            events := kept;
          }
        }
      }
      assert targets[..|targets|] == targets;
    }

    method TruncateFull(targets: seq<Log.Target>, now: int) returns (report: map<string, Truncated>)
      modifies this`events, this`sequence
      ensures Events() == FullAll(old(Events()), targets, now)
      ensures report == FullReport(old(Events()), targets, now)
    {
      report := map[];
      ghost var t := Events();
      for i := 0 to |targets|
        invariant Events() == FullAll(t, targets[..i], now)
        invariant report == FullReport(t, targets[..i], now)
      {
        FullSnoc(t, targets, i, now);
        var target := targets[i];
        if target.before.None? {
          var stream := target.stream;
          var kept := Filter((e: Log.Event) => e.stream != stream, events);
          var seed := Log.Seed(Log.Table(events, sequence), stream, target.snapshot, now);
          assert kept + [seed] == Log.Full(Events(), stream, target.snapshot, now).rows;
          report := report[stream := Truncated(|events| - |kept|, seed, None)];
          events, sequence := kept + [seed], sequence + 1;
        }
      }
      assert targets[..|targets|] == targets;
    }

    // -------------------------------------------------------------- subscriptions

    // One update per selected row.
    method GrantEach(combined: seq<Selection.Candidate>, lag: nat, holder: string, now: int, until: int,
                     ghost lane: Option<string>, ghost picked: set<Selection.Candidate>) returns (leases: seq<Lease>)
      requires lag <= |combined| && Selection.Distinct(combined) && Selection.Members(combined) == picked
      requires picked <= Fairness.Candidates(streams, now, lane)
      requires Sub.Paired(streams)
      modifies this`streams
      ensures Sub.Paired(streams)
      ensures Fairness.IsGrantAll(old(streams), streams, Fairness.Streams(picked), holder, now, until)
      ensures |leases| == |combined|
      ensures LeasesFor(old(streams), leases, Fairness.Streams(picked), holder)
      ensures Flagged(leases, Fairness.Streams(Selection.Members(combined[..lag])))
    {
      ghost var t := streams;
      leases := [];
      for i := 0 to |combined|
        invariant |leases| == i
        invariant streams == Fairness.GrantAll(t, Fairness.Streams(Selection.Members(combined[..i])), holder, now, until)
        invariant forall k :: 0 <= k < i ==>
          combined[k].stream in t && leases[k] == Leased(t, combined[k], holder, k < lag)
      {
        var c := combined[i];
        NotYet(t, combined, i, now, lane);
        GrantOneMore(t, Fairness.Streams(Selection.Members(combined[..i])), c.stream, holder, now, until);
        var row := streams[c.stream].(leasedBy := Some(holder), leasedUntil := Some(until),
                                      retry := streams[c.stream].retry + 1);
        streams := streams[c.stream := row];
        leases := leases + [Lease(c.stream, row.source, c.at, holder, row.retry, i < lag, row.lane, None)];
      }
      assert combined[..|combined|] == combined;
      LeasesDone(t, combined, leases, holder, lag, now, lane);
      FlagsDone(t, combined, leases, lag, now, lane);
      GrantAllPaired(t, Fairness.Streams(picked), holder, now, until);
    }

    // Leases the selected streams. `p` is the selection: a valid outcome of
    // the direct rule over every eligible row.
    method Claim(lagging: nat, leading: nat, holder: string, millis: int, lane: Option<string>, now: int, later: int)
      returns (leases: seq<Lease>, ghost p: Selection.Pick)
      requires Sub.Paired(streams)
      modifies this`streams
      ensures Sub.Paired(streams)
      ensures Selection.Direct(p, Fairness.Candidates(old(streams), now, lane), lagging, leading)
      ensures Fairness.IsGrantAll(old(streams), streams, Fairness.Streams(Selection.Picked(p)), holder, now, later + millis)
      ensures |leases| <= lagging + leading
      ensures LeasesFor(old(streams), leases, Fairness.Streams(Selection.Picked(p)), holder)
      ensures Flagged(leases, Fairness.Streams(p.prio + p.fair))
      ensures var claimable := Claimable(old(streams), now, lane);
              && StreamsOf(leases) <= claimable
              && (|claimable| <= lagging || |claimable| <= leading ==> StreamsOf(leases) == claimable)
      ensures LeasedRows(old(streams), streams, StreamsOf(leases), holder, later + millis)
    {
      hide *;  // facts to pass on, not to take apart
      ghost var t := streams;
      var combined, lag;
      combined, lag, p := Choice(lagging, leading, lane, now);
      leases := GrantEach(combined, lag, holder, now, later + millis, lane, Selection.Picked(p));
      ClaimedClaimable(t, p, leases, holder, lagging, leading, now, lane);
      ClaimedRows(t, streams, leases, Fairness.Streams(Selection.Picked(p)), holder, now, later + millis);
    }

    method Choice(lagging: nat, leading: nat, lane: Option<string>, now: int)
      returns (combined: seq<Selection.Candidate>, lag: nat, ghost p: Selection.Pick)
      ensures Selection.Direct(p, Fairness.Candidates(streams, now, lane), lagging, leading)
      ensures Selection.Distinct(combined) && Selection.Members(combined) == Selection.Picked(p)
      ensures lag <= |combined| && Selection.Members(combined[..lag]) == p.prio + p.fair
      ensures Selection.Picked(p) <= Fairness.Candidates(streams, now, lane)
      ensures |combined| <= lagging + leading
    {
      var lagged, lead;
      lagged, lead, p := Selection.Choose(Fairness.Candidates(streams, now, lane), lagging, leading);
      combined, lag := lagged + lead, |lagged|;
      assert combined[..lag] == lagged;
    }

    // Finalizes a batch in one transaction; only ownership is checked.
    method Ack(leases: seq<Lease>) returns (result: seq<Lease>)
      requires Sub.Paired(streams)
      modifies this`streams
      ensures Sub.Paired(streams)
      ensures streams == Sub.Run(old(streams), Acks(leases))
      ensures result == AckReturned(old(streams), leases, |leases|)
    {
      ghost var t, ops := streams, Acks(leases);
      Sub.RunPaired(t, ops);
      result := [];
      for i := 0 to |leases|
        invariant streams == Sub.Run(t, ops[..i])
        invariant result == AckReturned(t, leases, i)
      {
        Sub.RunSnoc(t, ops, i);
        var l := leases[i];
        if l.stream in streams && streams[l.stream].leasedBy == Some(l.holder) {
          var row := streams[l.stream].(at := l.at, deferredAt := l.due, leasedBy := None, leasedUntil := None,
                                        retry := if l.due.None? then -1 else l.retry);
          streams := streams[l.stream := row];
          if l.due.None? {
            result := result + [Lease(l.stream, row.source, l.at, l.holder, row.retry, l.lagging, row.lane, None)];
          }
        } else if l.stream in streams {
          assert streams[l.stream := streams[l.stream]] == streams;
        }
      }
      assert ops[..|leases|] == ops;
    }

    // Blocks what the holders own; the lease and the watermark stay.
    method Block(leases: seq<BlockedLease>) returns (result: seq<BlockedLease>)
      requires Sub.Paired(streams)
      modifies this`streams
      ensures Sub.Paired(streams)
      ensures streams == Sub.Run(old(streams), Blocks(leases))
      ensures result == BlockReturned(old(streams), leases, |leases|)
    {
      ghost var t, ops := streams, Blocks(leases);
      Sub.RunPaired(t, ops);
      result := [];
      for i := 0 to |leases|
        invariant streams == Sub.Run(t, ops[..i])
        invariant result == BlockReturned(t, leases, i)
      {
        BlockSnoc(t, leases, i);
        var l := leases[i].lease;
        if l.stream in streams && streams[l.stream].leasedBy == Some(l.holder) && !streams[l.stream].blocked {
          var row := streams[l.stream].(blocked := true, error := leases[i].error, deferredAt := None);
          streams := streams[l.stream := row];
          result := result + [
            BlockedLease(Lease(l.stream, row.source, row.at, l.holder, row.retry, l.lagging, row.lane, None),
                         leases[i].error)];
        }
      }
      assert ops[..|leases|] == ops;
    }

    // One update per distinct name; the count is of the rows there were.
    method EachRow(names: seq<string>, op: string -> Sub.Op) returns (count: nat)
      requires RowOp(op) && Sub.Paired(streams)
      modifies this`streams
      ensures Sub.Paired(streams)
      ensures streams == OnRows(old(streams), Names(names), op)
      ensures count == |Names(names) * old(streams).Keys|
    {
      ghost var t := streams;
      count := 0;
      OnNone(t, op);
      for i := 0 to |names|
        invariant streams == OnRows(t, Names(names[..i]), op)
        invariant count == |Names(names[..i]) * t.Keys|
      {
        var s := names[i];
        NamesSnoc(names, i);
        if s !in names[..i] {
          OneMore(t, Names(names[..i]), s, op);
          CountOne(t, Names(names[..i]), s);
          if s in streams {
            streams := streams[s := Sub.Step(streams[s], op(s))];
            count := count + 1;
          }
        }
      }
      assert names[..|names|] == names;
      OnRowsPaired(t, Names(names), op);
    }

    method Defer(names: seq<string>, until: int) returns (count: nat)
      requires Sub.Paired(streams)
      modifies this`streams
      ensures Sub.Paired(streams)
      ensures streams == OnRows(old(streams), Names(names), s => Sub.Defer(s, until))
      ensures Only(old(streams), streams, Names(names), (row: Sub.Row) => row.(deferredAt := Some(until), retry := -1))
      ensures count == |Names(names) * old(streams).Keys|
    {
      count := EachRow(names, s => Sub.Defer(s, until));
    }

    method Reset(names: seq<string>) returns (count: nat)
      requires Sub.Paired(streams)
      modifies this`streams
      ensures Sub.Paired(streams)
      ensures streams == OnRows(old(streams), Names(names), s => Sub.Reset(s))
      ensures Only(old(streams), streams, Names(names), ResetRow)
      ensures count == |Names(names) * old(streams).Keys|
    {
      count := EachRow(names, s => Sub.Reset(s));
    }

    // Only blocked rows are touched, and counted.
    method Unblock(names: seq<string>) returns (count: nat)
      requires Sub.Paired(streams)
      modifies this`streams
      ensures Sub.Paired(streams)
      ensures streams == OnRows(old(streams), Names(names), s => Sub.Unblock(s))
      ensures Only(old(streams), streams, BlockedRows(old(streams), Names(names)), UnblockedRow)
      ensures count == |BlockedRows(old(streams), Names(names))|
    {
      ghost var t := streams;
      var op := s => Sub.Unblock(s);
      count := 0;
      OnNone(t, op);
      for i := 0 to |names|
        invariant streams == OnRows(t, Names(names[..i]), op)
        invariant count == |BlockedRows(t, Names(names[..i]))|
      {
        var s := names[i];
        NamesSnoc(names, i);
        UnblockOne(t, Names(names[..i]), s);
        if s in streams && streams[s].blocked {
          streams := streams[s := Sub.Step(streams[s], op(s))];
          count := count + 1;
        }
      }
      assert names[..|names|] == names;
      OnRowsPaired(t, Names(names), op);
    }

    // The filter forms: one update of the rows the filter selects. A filter
    // with a pattern outside the portable subset changes nothing.
    method DeferWhere(f: StreamFilter, until: int) returns (count: Option<nat>)
      requires Sub.Paired(streams)
      modifies this`streams
      ensures Sub.Paired(streams)
      ensures count.Some? <==> Convertible(f)
      ensures count.None? ==> streams == old(streams)
      ensures count.Some? ==>
                && streams == OnRows(old(streams), Selected(f, old(streams)), s => Sub.Defer(s, until))
                && Only(old(streams), streams, Selected(f, old(streams)),
                        (row: Sub.Row) => row.(deferredAt := Some(until), retry := -1))
                && count.value == |Selected(f, old(streams))|
    {
      var names := Matching(f, streams);
      if names.None? {
        return None;
      }
      streams := map s | s in streams ::
        if s in names.value then streams[s].(deferredAt := Some(until), retry := -1) else streams[s];
      count := Some(|names.value|);
    }

    method ResetWhere(f: StreamFilter) returns (count: Option<nat>)
      requires Sub.Paired(streams)
      modifies this`streams
      ensures Sub.Paired(streams)
      ensures count.Some? <==> Convertible(f)
      ensures count.None? ==> streams == old(streams)
      ensures count.Some? ==>
                && streams == OnRows(old(streams), Selected(f, old(streams)), s => Sub.Reset(s))
                && Only(old(streams), streams, Selected(f, old(streams)), ResetRow)
                && count.value == |Selected(f, old(streams))|
    {
      var names := Matching(f, streams);
      if names.None? {
        return None;
      }
      streams := map s | s in streams ::
        if s in names.value then
          streams[s].(at := -1, retry := -1, blocked := false, error := "",
                      leasedBy := None, leasedUntil := None, deferredAt := None)
        else streams[s];
      count := Some(|names.value|);
    }

    // Whatever the caller says of `blocked`, only blocked rows qualify.
    method UnblockWhere(f: StreamFilter) returns (count: Option<nat>)
      requires Sub.Paired(streams)
      modifies this`streams
      ensures Sub.Paired(streams)
      ensures count.Some? <==> Convertible(f)
      ensures count.None? ==> streams == old(streams)
      ensures count.Some? ==>
                var names := Selected(f.(blocked := Some(true)), old(streams));
                && streams == OnRows(old(streams), names, s => Sub.Unblock(s))
                && Only(old(streams), streams, names, UnblockedRow)
                && count.value == |names|
    {
      var names := Matching(f.(blocked := Some(true)), streams);
      if names.None? {
        return None;
      }
      streams := map s | s in streams ::
        if s in names.value then
          streams[s].(retry := -1, blocked := false, error := "",
                      leasedBy := None, leasedUntil := None, deferredAt := None)
        else streams[s];
      count := Some(|names.value|);
    }

    // Rows that already have the priority are neither touched nor counted.
    method Prioritize(f: StreamFilter, priority: int) returns (count: Option<nat>)
      requires Sub.Paired(streams)
      modifies this`streams
      ensures Sub.Paired(streams)
      ensures count.Some? <==> Convertible(f)
      ensures count.None? ==> streams == old(streams)
      ensures count.Some? ==>
                && streams == OnRows(old(streams), Selected(f, old(streams)), s => Sub.Prioritize(s, priority))
                && Only(old(streams), streams, Selected(f, old(streams)), (row: Sub.Row) => row.(priority := priority))
                && count.value == |set s | s in Selected(f, old(streams)) && old(streams)[s].priority != priority|
    {
      var matching := Matching(f, streams);
      if matching.None? {
        return None;
      }
      var names := set s | s in matching.value && streams[s].priority != priority;
      streams := map s | s in streams ::
        if s in names then streams[s].(priority := priority) else streams[s];
      count := Some(|names|);
    }

    // Registers rows, raises marks, and writes the correlation checkpoint and
    // lease of the caller; a pattern source outside the portable subset is
    // refused before any row is written.
    method Subscribe(inputs: seq<Subscription>, position: Option<int>, claimant: Option<Cor.Claimant>, now: int)
      returns (r: Subscribed)
      requires Sub.Paired(streams) && Cor.UnderShared(correlated)
      modifies this`streams, this`correlated
      ensures Sub.Paired(streams) && Cor.UnderShared(correlated)
      ensures r.Refused? <==> exists i :: 0 <= i < |inputs| && !Portable(inputs[i].source)
      ensures r.Refused? ==> streams == old(streams) && correlated == old(correlated)
      ensures r.Subscribed? ==>
                var call := Cor.Call(claimant, position, now);
                && streams == Sub.Run(old(streams), Subscribes(inputs))
                && correlated == Cor.Apply(old(correlated), call)
                && old(streams).Keys <= streams.Keys
                && r.subscribed == |streams| - |old(streams)|
                && IsWatermark(streams, r.watermark)
                && (claimant.None? ==> r.correlating.None? && r.correlatedAt == correlated[Cor.SHARED].at)
                && (claimant.Some? ==>
                      && claimant.value.key in correlated
                      && r.correlatedAt == correlated[claimant.value.key].at
                      && r.correlating == Some(Cor.Takes(old(correlated), claimant.value, now)))
    {
      var bad := CheckSources(inputs);
      if bad.Some? {
        return Refused(bad.value);
      }
      var subscribed := Register(inputs);
      var watermark := Watermark();
      var correlating := Checkpoint(position, claimant, now);
      var key := if claimant.Some? then claimant.value.key else Cor.SHARED;
      r := Subscribed(subscribed, watermark, correlated[key].at, correlating);
    }

    // The checkpoint and the lease in one conditional upsert, then the shared
    // row.
    method Checkpoint(position: Option<int>, claimant: Option<Cor.Claimant>, now: int)
      returns (correlating: Option<bool>)
      requires Cor.UnderShared(correlated)
      modifies this`correlated
      ensures Cor.UnderShared(correlated)
      ensures correlated == Cor.Apply(old(correlated), Cor.Call(claimant, position, now))
      ensures claimant.None? ==> correlating.None?
      ensures claimant.Some? ==> claimant.value.key in correlated
      ensures claimant.Some? ==> correlating == Some(Cor.Takes(old(correlated), claimant.value, now))
    {
      correlating := None;
      if claimant.Some? {
        var c := claimant.value;
        var at := if position.Some? then position.value else -1;
        var until := if c.millis > 0 then Some(now + c.millis) else None;
        if c.key !in correlated {
          correlating := Some(true);
          correlated := correlated[c.key := Cor.Checkpoint(Cor.Max(at, correlated[Cor.SHARED].at), Some(c.holder), until)];
        } else {
          var row := correlated[c.key];
          if row.leasedUntil.None? || row.leasedUntil.value < now || row.leasedBy == Some(c.holder) {
            correlating := Some(true);
            correlated := correlated[c.key := Cor.Checkpoint(Cor.Max(row.at, at), Some(c.holder), until)];
          } else {
            correlating := Some(false);
            if position.Some? {
              correlated := correlated[c.key := row.(at := Cor.Max(row.at, position.value))];
            }
          }
        }
      }
      if position.Some? {
        var shared := correlated[Cor.SHARED];
        correlated := correlated[Cor.SHARED := shared.(at := Cor.Max(shared.at, position.value))];
      }
    }

    method CheckSources(inputs: seq<Subscription>) returns (bad: Option<string>)
      ensures bad.Some? <==> exists i :: 0 <= i < |inputs| && !Portable(inputs[i].source)
    {
      for i := 0 to |inputs|
        invariant forall k :: 0 <= k < i ==> Portable(inputs[k].source)
      {
        var source := inputs[i].source;
        if source.Some? && !WorkMark.Literal(source.value) {
          var glob := StreamPattern.StreamPatternToGlob(source.value);
          if glob.ValidationError? {
            return Some(source.value);
          }
        }
      }
      bad := None;
    }

    method Register(inputs: seq<Subscription>) returns (subscribed: nat)
      requires Sub.Paired(streams)
      modifies this`streams
      ensures Sub.Paired(streams)
      ensures streams == Sub.Run(old(streams), Subscribes(inputs))
      ensures old(streams).Keys <= streams.Keys && subscribed == |streams| - |old(streams)|
    {
      ghost var t, ops := streams, Subscribes(inputs);
      Sub.RunPaired(t, ops);
      subscribed := 0;
      for i := 0 to |inputs|
        invariant streams == Sub.Run(t, ops[..i])
        invariant |streams| == |t| + subscribed
      {
        Sub.RunSnoc(t, ops, i);
        var inserted := Upsert(inputs[i]);
        subscribed := subscribed + if inserted then 1 else 0;
      }
      assert ops[..|inputs|] == ops;
    }

    // Insert or keep; then the larger priority, the caller's lane, and a mark
    // that never regresses.
    method Upsert(input: Subscription) returns (inserted: bool)
      modifies this`streams
      ensures streams == Sub.Apply(old(streams), Subscribes([input])[0])
      ensures inserted <==> input.stream !in old(streams)
      ensures |streams| == |old(streams)| + if inserted then 1 else 0
    {
      inserted := input.stream !in streams;
      if inserted {
        streams := streams[input.stream := Sub.NewRow(input.source, input.priority, input.lane, None)];
      } else {
        var row := streams[input.stream];
        if row.priority < input.priority {
          row := row.(priority := input.priority);
        }
        streams := streams[input.stream := row.(lane := input.lane)];
      }
      var row := streams[input.stream];
      if input.mark.Some? && (row.correlatedAt.None? || row.correlatedAt.value < input.mark.value) {
        streams := streams[input.stream := row.(correlatedAt := input.mark)];
      }
    }

    method Watermark() returns (w: int)
      ensures IsWatermark(streams, w)
    {
      if streams == map[] {
        return -1;
      }
      var first :| first in streams;
      w := streams[first].at;
      var rest := streams.Keys - {first};
      while rest != {}
        invariant rest <= streams.Keys
        invariant forall s :: s in streams && s !in rest ==> streams[s].at <= w
        invariant exists s :: s in streams && streams[s].at == w
        decreases |rest|
      {
        var s :| s in rest;
        if streams[s].at > w {
          w := streams[s].at;
        }
        rest := rest - {s};
      }
    }
  }
}
