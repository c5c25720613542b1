/** What the loops of the SQLite store compute, as functions of the tables they
    start from. */
module SqliteSteps {
  import opened Seqs
  import Log = EventLog
  import Sub = Subscriptions
  import Selection = ClaimSelection
  import Fairness
  import SelectionLaws
  import StreamPattern
  import WorkMark

  datatype Lease = Lease(
    stream: string, source: Option<string>, at: int, holder: string, retry: int,
    lagging: bool, lane: string, due: Option<int>)

  datatype BlockedLease = BlockedLease(lease: Lease, error: string)

  datatype Subscription = Subscription(
    stream: string, source: Option<string>, priority: int, lane: string, mark: Option<int>)

  datatype Subscribed =
    | Subscribed(subscribed: nat, watermark: int, correlatedAt: int, correlating: Option<bool>)
    | Refused(source: string)

  datatype Truncated = Truncated(deleted: int, committed: Log.Event, before: Option<int>)

  // ---------------------------------------------------------------- what the loops compute

  function Acks(leases: seq<Lease>): seq<Sub.Op> {
    seq(|leases|, i requires 0 <= i < |leases| =>
      Sub.Ack(leases[i].stream, leases[i].holder, leases[i].at, leases[i].retry, leases[i].due))
  }

  function Blocks(leases: seq<BlockedLease>): seq<Sub.Op> {
    seq(|leases|, i requires 0 <= i < |leases| =>
      Sub.Block(leases[i].lease.stream, leases[i].lease.holder, leases[i].error))
  }

  function Subscribes(inputs: seq<Subscription>): seq<Sub.Op> {
    seq(|inputs|, i requires 0 <= i < |inputs| =>
      Sub.Subscribe(inputs[i].stream, inputs[i].source, inputs[i].priority, inputs[i].lane, inputs[i].mark))
  }

  // The first `n` entries of an ack return the ones they found owned and not
  // due again, with what the row holds after the step.
  function AckReturned(t: Sub.Table, leases: seq<Lease>, n: nat): seq<Lease>
    requires n <= |leases|
  {
    if n == 0 then []
    else
      var l, before := leases[n - 1], Sub.Run(t, Acks(leases)[..n - 1]);
      AckReturned(t, leases, n - 1) +
      if l.due.None? && Sub.Holds(before, l.stream, l.holder) then
        var row := before[l.stream];
        [Lease(l.stream, row.source, l.at, l.holder, -1, l.lagging, row.lane, None)]
      else []
  }

  // A block returns the leases it found owned and not blocked, at the
  // watermark the row really has.
  function BlockReturned(t: Sub.Table, leases: seq<BlockedLease>, n: nat): seq<BlockedLease>
    requires n <= |leases|
  {
    if n == 0 then []
    else
      var l, before := leases[n - 1].lease, Sub.Run(t, Blocks(leases)[..n - 1]);
      BlockReturned(t, leases, n - 1) +
      if Sub.Holds(before, l.stream, l.holder) && !before[l.stream].blocked then
        var row := before[l.stream];
        [BlockedLease(Lease(l.stream, row.source, row.at, l.holder, row.retry, l.lagging, row.lane, None),
                      leases[n - 1].error)]
      else []
  }

  // The same step on each of a set of rows.
  function OnRows(t: Sub.Table, names: set<string>, op: string -> Sub.Op): Sub.Table {
    map s | s in t :: if s in names then Sub.Step(t[s], op(s)) else t[s]
  }

  // The same rows, each of the named ones updated and the others as they were.
  ghost predicate Only(t: Sub.Table, after: Sub.Table, names: set<string>, update: Sub.Row -> Sub.Row) {
    && after.Keys == t.Keys
    && forall s :: s in t ==> after[s] == if s in names then update(t[s]) else t[s]
  }

  // Start over: only the mark, the source, the priority and the lane survive.
  function ResetRow(row: Sub.Row): Sub.Row {
    Sub.NewRow(row.source, row.priority, row.lane, row.correlatedAt)
  }

  // As a reset, but the watermark stays.
  function UnblockedRow(row: Sub.Row): Sub.Row {
    ResetRow(row).(at := row.at)
  }

  function WindowAll(t: Log.Table, targets: seq<Log.Target>): Log.Table {
    if targets == [] then t
    else
      var n := |targets| - 1;
      var before := WindowAll(t, targets[..n]);
      if targets[n].before.None? then before
      else Log.Windowed(before, targets[n].stream, targets[n].before.value, targets[n].maxId)
  }

  function FullAll(t: Log.Table, targets: seq<Log.Target>, now: int): Log.Table {
    if targets == [] then t
    else
      var n := |targets| - 1;
      FullOne(FullAll(t, targets[..n], now), targets[n], now)
  }

  function FullOne(t: Log.Table, target: Log.Target, now: int): Log.Table {
    if target.before.Some? then t else Log.Full(t, target.stream, target.snapshot, now)
  }

  // What a truncate reports: per target the number of rows it deleted and the
  // boundary, or the seed, the stream now starts with. A windowed target
  // without a boundary is absent.
  function WindowReport(t: Log.Table, targets: seq<Log.Target>): map<string, Truncated> {
    if targets == [] then map[]
    else
      var n := |targets| - 1;
      var before, report, target := WindowAll(t, targets[..n]), WindowReport(t, targets[..n]), targets[n];
      if target.before.None? then report
      else
        var boundary := Log.Boundary(before.rows, target.stream, target.before.value, target.maxId);
        if boundary.None? then report
        else report[target.stream := Truncated(|before.rows| - |WindowAll(t, targets).rows|, boundary.value, target.before)]
  }

  function FullReport(t: Log.Table, targets: seq<Log.Target>, now: int): map<string, Truncated> {
    if targets == [] then map[]
    else
      var n := |targets| - 1;
      var before, report, target := FullAll(t, targets[..n], now), FullReport(t, targets[..n], now), targets[n];
      if target.before.Some? then report
      else report[target.stream := Truncated(|before.rows| + 1 - |FullAll(t, targets, now).rows|,
                                             Log.Seed(before, target.stream, target.snapshot, now), None)]
  }

  // A source `subscribe` accepts: none, a literal name, or a portable pattern.
  predicate Portable(source: Option<string>) {
    source.Some? && !WorkMark.Literal(source.value) ==> StreamPattern.Compile(source.value).Ok?
  }

  // `SELECT COALESCE(MAX(at), -1)`
  ghost predicate IsWatermark(t: Sub.Table, w: int) {
    if t == map[] then w == -1
    else (forall s :: s in t ==> t[s].at <= w) && exists s :: s in t && t[s].at == w
  }

  // ---------------------------------------------------------------- lemmas

  lemma {:induction false} RunUntouched(t: Sub.Table, ops: seq<Sub.Op>, s: string)
    requires forall i :: 0 <= i < |ops| ==> ops[i].stream != s
    ensures s in Sub.Run(t, ops) <==> s in t
    ensures s in t ==> Sub.Run(t, ops)[s] == t[s]
  {
    if ops != [] {
      RunUntouched(t, ops[..|ops| - 1], s);
    }
  }

  // One entry of a block batch.
  lemma BlockSnoc(t: Sub.Table, leases: seq<BlockedLease>, i: nat)
    requires i < |leases|
    ensures var now, l := Sub.Run(t, Blocks(leases)[..i]), leases[i].lease;
            var after, returned := Sub.Run(t, Blocks(leases)[..i + 1]), BlockReturned(t, leases, i);
            if Sub.Holds(now, l.stream, l.holder) && !now[l.stream].blocked then
              var row := now[l.stream].(blocked := true, error := leases[i].error, deferredAt := None);
              && after == now[l.stream := row]
              && BlockReturned(t, leases, i + 1) == returned +
                   [BlockedLease(Lease(l.stream, row.source, row.at, l.holder, row.retry, l.lagging, row.lane, None),
                                 leases[i].error)]
            else after == now && BlockReturned(t, leases, i + 1) == returned
  {
    Sub.RunSnoc(t, Blocks(leases), i);
    var now := Sub.Run(t, Blocks(leases)[..i]);
    if leases[i].lease.stream in now {
      assert now[leases[i].lease.stream := now[leases[i].lease.stream]] == now;
    }
  }

  lemma GrantOneMore(t: Sub.Table, streams: set<string>, s: string, holder: string, now: int, until: int)
    requires s in t && s !in streams
    ensures var before := Fairness.GrantAll(t, streams, holder, now, until);
            && Fairness.GrantAll(t, streams + {s}, holder, now, until) == Sub.Apply(before, Sub.Grant(s, holder, now, until))
            && s in before && before[s] == t[s]
  {
  }

  lemma GrantAllPaired(t: Sub.Table, streams: set<string>, holder: string, now: int, until: int)
    requires Sub.Paired(t)
    ensures Sub.Paired(Fairness.GrantAll(t, streams, holder, now, until))
  {
  }

  function Names(names: seq<string>): set<string> {
    set s | s in names
  }

  lemma NamesSnoc(names: seq<string>, i: nat)
    requires i < |names|
    ensures Names(names[..i + 1]) == Names(names[..i]) + {names[i]}
    ensures names[i] in names[..i] ==> Names(names[..i + 1]) == Names(names[..i])
  {
  }

  function BlockedRows(t: Sub.Table, names: set<string>): set<string> {
    set s | s in names && s in t && t[s].blocked
  }

  // A second unblock of a row finds it unblocked already.
  lemma UnblockOne(t: Sub.Table, done: set<string>, s: string)
    ensures var op := (x: string) => Sub.Unblock(x);
            var now := OnRows(t, done, op);
            && OnRows(t, done + {s}, op) == (if s in now && now[s].blocked then now[s := Sub.Step(now[s], op(s))] else now)
            && |BlockedRows(t, done + {s})| == |BlockedRows(t, done)| + (if s in now && now[s].blocked then 1 else 0)
  {
    UnblockMore(t, done, s);
    if s in t && t[s].blocked && s !in done {
      assert BlockedRows(t, done + {s}) == BlockedRows(t, done) + {s};
    } else {
      assert BlockedRows(t, done + {s}) == BlockedRows(t, done);
    }
  }

  lemma UnblockMore(t: Sub.Table, done: set<string>, s: string)
    ensures var op := (x: string) => Sub.Unblock(x);
            var now := OnRows(t, done, op);
            && (s in now && now[s].blocked <==> s in t && t[s].blocked && s !in done)
            && OnRows(t, done + {s}, op) == (if s in now && now[s].blocked then now[s := Sub.Step(now[s], op(s))] else now)
  {
  }

  ghost predicate RowOp(op: string -> Sub.Op) {
    forall s :: op(s).stream == s && !op(s).Subscribe?
  }

  lemma OneMore(t: Sub.Table, names: set<string>, s: string, op: string -> Sub.Op)
    requires s !in names && RowOp(op)
    ensures OnRows(t, names + {s}, op) == Sub.Apply(OnRows(t, names, op), op(s))
  {
    var l, r := OnRows(t, names + {s}, op), Sub.Apply(OnRows(t, names, op), op(s));
    assert l.Keys == t.Keys;
    assert r.Keys == t.Keys;
  }

  lemma OnNone(t: Sub.Table, op: string -> Sub.Op)
    ensures OnRows(t, {}, op) == t
  {
  }

  lemma CountOne(t: Sub.Table, done: set<string>, s: string)
    requires s !in done
    ensures |(done + {s}) * t.Keys| == |done * t.Keys| + if s in t then 1 else 0
  {
    if s in t {
      assert (done + {s}) * t.Keys == done * t.Keys + {s};
    } else {
      assert (done + {s}) * t.Keys == done * t.Keys;
    }
  }

  lemma OnRowsPaired(t: Sub.Table, names: set<string>, op: string -> Sub.Op)
    requires Sub.Paired(t) && RowOp(op)
    ensures Sub.Paired(OnRows(t, names, op))
  {
  }

  lemma FullSnoc(t: Log.Table, targets: seq<Log.Target>, i: nat, now: int)
    requires i < |targets|
    ensures FullAll(t, targets[..i + 1], now) == FullOne(FullAll(t, targets[..i], now), targets[i], now)
    ensures FullReport(t, targets[..i + 1], now) ==
            if targets[i].before.Some? then FullReport(t, targets[..i], now)
            else
              var before := FullAll(t, targets[..i], now);
              FullReport(t, targets[..i], now)[targets[i].stream :=
                Truncated(|before.rows| + 1 - |FullOne(before, targets[i], now).rows|,
                          Log.Seed(before, targets[i].stream, targets[i].snapshot, now), None)]
  {
    assert targets[..i + 1][..i] == targets[..i];
  }

  lemma {:induction false} WindowAllValid(t: Log.Table, targets: seq<Log.Target>)
    requires Log.Valid(t)
    ensures Log.Valid(WindowAll(t, targets))
  {
    if targets != [] {
      var n := |targets| - 1;
      WindowAllValid(t, targets[..n]);
      if targets[n].before.Some? {
        Log.WindowedValid(WindowAll(t, targets[..n]), targets[n].stream, targets[n].before.value, targets[n].maxId);
      }
    }
  }

  lemma {:induction false} FullAllValid(t: Log.Table, targets: seq<Log.Target>, now: int)
    requires Log.Valid(t)
    ensures Log.Valid(FullAll(t, targets, now))
  {
    if targets != [] {
      var n := |targets| - 1;
      FullAllValid(t, targets[..n], now);
      if targets[n].before.None? {
        Log.FullValid(FullAll(t, targets[..n], now), targets[n].stream, targets[n].snapshot, now);
      }
    }
  }

  // ---------------------------------------------------------------- claims

  ghost function Leased(t: Sub.Table, c: Selection.Candidate, holder: string, lagging: bool): Lease
    requires c.stream in t
  {
    var row := t[c.stream];
    Lease(c.stream, row.source, row.at, holder, row.retry + 1, lagging, row.lane, None)
  }

  // Candidates of one table are told apart by their stream.
  lemma NotYet(t: Sub.Table, combined: seq<Selection.Candidate>, i: nat, now: int, lane: Option<string>)
    requires Selection.Distinct(combined) && i < |combined|
    requires Selection.Members(combined) <= Fairness.Candidates(t, now, lane)
    ensures combined[i].stream in t && Sub.Eligible(t[combined[i].stream], now, lane)
    ensures combined[i].stream !in Fairness.Streams(Selection.Members(combined[..i]))
    ensures combined[i].at == t[combined[i].stream].at
    ensures Fairness.Streams(Selection.Members(combined[..i + 1]))
         == Fairness.Streams(Selection.Members(combined[..i])) + {combined[i].stream}
  {
    assert forall c :: c in combined ==> c in Selection.Members(combined);
    assert combined[i] in combined;
    assert forall k :: 0 <= k < |combined| ==> combined[k] in combined;
    assert Selection.Members(combined[..i + 1]) == Selection.Members(combined[..i]) + {combined[i]};
    assert forall c :: c in combined[..i] ==> exists k :: 0 <= k < i && combined[k] == c;
  }

  // The rows a claim may lease, column by column: not blocked, no lease or
  // deferral past `now`, work up to a mark beyond the watermark, and the lane
  // asked for.
  function Claimable(t: Sub.Table, now: int, lane: Option<string>): set<string> {
    set s | s in t
      && t[s].blocked == false
      && (t[s].leasedUntil.Some? ==> t[s].leasedUntil.value <= now)
      && (t[s].deferredAt.Some? ==> t[s].deferredAt.value <= now)
      && t[s].correlatedAt.Some? && t[s].at < t[s].correlatedAt.value
      && (lane.Some? ==> t[s].lane == lane.value)
  }

  lemma {:induction false} OneEach(cs: set<Selection.Candidate>)
    requires forall a, b :: a in cs && b in cs && a.stream == b.stream ==> a == b
    ensures |Fairness.Streams(cs)| == |cs|
  {
    if cs != {} {
      var c :| c in cs;
      OneEach(cs - {c});
      assert Fairness.Streams(cs) == Fairness.Streams(cs - {c}) + {c.stream};
    }
  }

  lemma CandidatesClaimable(t: Sub.Table, now: int, lane: Option<string>)
    ensures Fairness.Streams(Fairness.Candidates(t, now, lane)) == Claimable(t, now, lane)
    ensures |Fairness.Candidates(t, now, lane)| == |Claimable(t, now, lane)|
  {
    var cs := Fairness.Candidates(t, now, lane);
    forall s | s in Claimable(t, now, lane) ensures s in Fairness.Streams(cs) {
      assert Selection.Candidate(s, t[s].at, t[s].priority) in cs;
    }
    assert Fairness.Streams(cs) == Claimable(t, now, lane);
    OneEach(cs);
  }

  // A claim leases claimable rows only, and all of them when its budget allows.
  lemma ClaimedClaimable(t: Sub.Table, p: Selection.Pick, leases: seq<Lease>, holder: string,
                         lagging: nat, leading: nat, now: int, lane: Option<string>)
    requires Selection.Direct(p, Fairness.Candidates(t, now, lane), lagging, leading)
    requires LeasesFor(t, leases, Fairness.Streams(Selection.Picked(p)), holder)
    ensures StreamsOf(leases) <= Claimable(t, now, lane)
    ensures |Claimable(t, now, lane)| <= lagging || |Claimable(t, now, lane)| <= leading ==>
              StreamsOf(leases) == Claimable(t, now, lane)
  {
    var cs := Fairness.Candidates(t, now, lane);
    Selection.PickedWithinBudget(p, cs, lagging, leading);
    if |Claimable(t, now, lane)| <= lagging || |Claimable(t, now, lane)| <= leading {
      CandidatesClaimable(t, now, lane);
      SelectionLaws.BudgetForAll(p, cs, lagging, leading);
    }
    hide Selection.Direct;
    CandidatesClaimable(t, now, lane);
    LeasedStreams(t, leases, Fairness.Streams(Selection.Picked(p)), holder);
    assert Fairness.Streams(Selection.Picked(p)) <= Fairness.Streams(cs);
  }

  // What a claim does to each row.
  ghost predicate LeasedRows(t: Sub.Table, after: Sub.Table, leased: set<string>, holder: string, until: int) {
    && after.Keys == t.Keys
    && forall s :: s in t ==>
         after[s] == if s in leased then t[s].(leasedBy := Some(holder), leasedUntil := Some(until), retry := t[s].retry + 1)
                     else t[s]
  }

  lemma ClaimedRows(t: Sub.Table, after: Sub.Table, leases: seq<Lease>, picked: set<string>, holder: string,
                    now: int, until: int)
    requires Fairness.IsGrantAll(t, after, picked, holder, now, until) && LeasesFor(t, leases, picked, holder)
    ensures LeasedRows(t, after, StreamsOf(leases), holder, until)
  {
    LeasedStreams(t, leases, picked, holder);
  }

  lemma LeasedStreams(t: Sub.Table, leases: seq<Lease>, picked: set<string>, holder: string)
    requires LeasesFor(t, leases, picked, holder)
    ensures StreamsOf(leases) == picked
  {
    forall s | s in picked ensures s in StreamsOf(leases) {
      var i :| 0 <= i < |leases| && leases[i].stream == s;
      assert leases[i] in leases;
    }
  }

  // One lease per selected stream, carrying the row's own watermark and the
  // claim-incremented retry.
  ghost predicate LeasesFor(t: Sub.Table, leases: seq<Lease>, picked: set<string>, holder: string) {
    && (forall i, j :: 0 <= i < j < |leases| ==> leases[i].stream != leases[j].stream)
    && (forall s :: s in picked <==> exists i :: 0 <= i < |leases| && leases[i].stream == s)
    && forall i :: 0 <= i < |leases| ==>
         && leases[i].stream in t
         && var row := t[leases[i].stream];
            leases[i] == Lease(leases[i].stream, row.source, row.at, holder, row.retry + 1,
                               leases[i].lagging, row.lane, None)
  }

  // The flag says which frontier selected the stream; one on both is lagging.
  ghost predicate Flagged(leases: seq<Lease>, lagging: set<string>) {
    forall i :: 0 <= i < |leases| ==> (leases[i].lagging <==> leases[i].stream in lagging)
  }

  lemma FlagsDone(t: Sub.Table, combined: seq<Selection.Candidate>, leases: seq<Lease>, lag: nat,
                  now: int, lane: Option<string>)
    requires Selection.Distinct(combined) && lag <= |combined| == |leases|
    requires Selection.Members(combined) <= Fairness.Candidates(t, now, lane)
    requires forall k :: 0 <= k < |combined| ==>
               leases[k].stream == combined[k].stream && leases[k].lagging == (k < lag)
    ensures Flagged(leases, Fairness.Streams(Selection.Members(combined[..lag])))
  {
    forall k | 0 <= k < |leases|
      ensures leases[k].lagging <==> leases[k].stream in Fairness.Streams(Selection.Members(combined[..lag]))
    {
      if k < lag {
        assert combined[k] in combined[..lag];
      } else {
        NotYet(t, combined, k, now, lane);
        assert combined[..lag] <= combined[..k];
      }
    }
  }

  lemma LeasesDone(t: Sub.Table, combined: seq<Selection.Candidate>, leases: seq<Lease>, holder: string,
                   lag: nat, now: int, lane: Option<string>)
    requires Selection.Distinct(combined)
    requires Selection.Members(combined) <= Fairness.Candidates(t, now, lane)
    requires |leases| == |combined|
    requires forall k :: 0 <= k < |combined| ==>
               combined[k].stream in t && leases[k] == Leased(t, combined[k], holder, k < lag)
    ensures LeasesFor(t, leases, Fairness.Streams(Selection.Members(combined)), holder)
  {
    forall i, j | 0 <= i < j < |leases| ensures leases[i].stream != leases[j].stream {
      NotYet(t, combined, j, now, lane);
      assert combined[i] in combined[..j];
    }
    forall i | 0 <= i < |leases| ensures leases[i].stream in Fairness.Streams(Selection.Members(combined)) {
      assert combined[i] in Selection.Members(combined);
    }
  }

  // ---------------------------------------------------------------- calls are runs

  function Grants(leases: seq<Lease>, now: int, until: int): seq<Sub.Op> {
    seq(|leases|, i requires 0 <= i < |leases| => Sub.Grant(leases[i].stream, leases[i].holder, now, until))
  }

  function StreamsOf(leases: seq<Lease>): set<string> {
    set l | l in leases :: l.stream
  }

  // A claim is a run of grants, each of a row that is free when it is taken,
  // so what is proved of runs of row steps holds of claims.
  lemma ClaimIsRun(t: Sub.Table, leases: seq<Lease>, holder: string, now: int, until: int)
    requires LeasesFor(t, leases, StreamsOf(leases), holder)
    requires forall s :: s in StreamsOf(leases) ==> Sub.Free(t[s], now)
    ensures Sub.Run(t, Grants(leases, now, until)) == Fairness.GrantAll(t, StreamsOf(leases), holder, now, until)
    ensures Sub.AllowedRun(t, Grants(leases, now, until))
  {
    var ops := Grants(leases, now, until);
    forall i ensures Sub.AllowedAt(t, ops, i) {
      if 0 <= i < |leases| {
        GrantedSoFar(t, leases, i, holder, now, until);
        assert leases[i] in leases;
      }
    }
    GrantedSoFar(t, leases, |leases|, holder, now, until);
    assert ops[..|leases|] == ops && leases[..|leases|] == leases;
  }

  lemma {:induction false} GrantedSoFar(t: Sub.Table, leases: seq<Lease>, n: nat, holder: string, now: int, until: int)
    requires LeasesFor(t, leases, StreamsOf(leases), holder) && n <= |leases|
    ensures Sub.Run(t, Grants(leases, now, until)[..n])
         == Fairness.GrantAll(t, StreamsOf(leases[..n]), holder, now, until)
    ensures n < |leases| ==> leases[n].stream in t && leases[n].stream !in StreamsOf(leases[..n])
  {
    if n > 0 {
      GrantedSoFar(t, leases, n - 1, holder, now, until);
      Sub.RunSnoc(t, Grants(leases, now, until), n - 1);
      assert StreamsOf(leases[..n]) == StreamsOf(leases[..n - 1]) + {leases[n - 1].stream};
      GrantOneMore(t, StreamsOf(leases[..n - 1]), leases[n - 1].stream, holder, now, until);
    }
  }

  function Each(names: seq<string>, op: string -> Sub.Op): seq<Sub.Op> {
    seq(|names|, i requires 0 <= i < |names| => op(names[i]))
  }

  // A step on a set of rows is a run of one step for each.
  lemma {:induction false} OnRowsIsRun(t: Sub.Table, names: seq<string>, op: string -> Sub.Op)
    requires RowOp(op) && forall i, j :: 0 <= i < j < |names| ==> names[i] != names[j]
    ensures OnRows(t, Names(names), op) == Sub.Run(t, Each(names, op))
  {
    if names == [] {
      OnNone(t, op);
    } else {
      var n := |names| - 1;
      OnRowsIsRun(t, names[..n], op);
      assert Each(names, op)[..n] == Each(names[..n], op);
      NamesSnoc(names, n);
      assert names[..n + 1] == names;
      OneMore(t, Names(names[..n]), names[n], op);
    }
  }

  // The run is allowed when each step is, on the table it starts from.
  lemma EachAllowed(t: Sub.Table, names: seq<string>, op: string -> Sub.Op)
    requires RowOp(op) && forall i, j :: 0 <= i < j < |names| ==> names[i] != names[j]
    requires forall s :: s in names ==> Sub.Allowed(t, op(s))
    ensures Sub.AllowedRun(t, Each(names, op))
  {
    var ops := Each(names, op);
    forall i ensures Sub.AllowedAt(t, ops, i) {
      if 0 <= i < |names| {
        forall k | 0 <= k < i ensures ops[..i][k].stream != names[i] {
          assert ops[..i][k] == op(names[k]);
        }
        RunUntouched(t, ops[..i], names[i]);
        assert names[i] in names && ops[i] == op(names[i]);
      }
    }
  }
}
