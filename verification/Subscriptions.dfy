/** The subscription table, one row at a time. Every store operation is a run
    of single-row steps; the laws below hold of any run, whoever takes the
    steps and in whatever order. */
module Subscriptions {
  import opened Seqs

  datatype Row = Row(
    source: Option<string>,
    at: int,                      // watermark: last event handled
    retry: int,
    blocked: bool,
    error: string,
    leasedBy: Option<string>,
    leasedUntil: Option<int>,
    priority: int,
    lane: string,
    deferredAt: Option<int>,
    correlatedAt: Option<int>)    // work mark

  type Table = map<string, Row>

  datatype Op =
    | Subscribe(stream: string, source: Option<string>, priority: int, lane: string, mark: Option<int>)
    | Grant(stream: string, holder: string, now: int, until: int)
    | Ack(stream: string, holder: string, at: int, retry: int, due: Option<int>)
    | Block(stream: string, holder: string, error: string)
    | Defer(stream: string, until: int)
    | Reset(stream: string)
    | Unblock(stream: string)
    | Prioritize(stream: string, priority: int)

  // ---------------------------------------------------------------- steps

  // Neither blocked, nor leased past `now`, nor deferred past `now`.
  predicate Free(row: Row, now: int) {
    && !row.blocked
    && (row.leasedUntil.None? || row.leasedUntil.value <= now)
    && (row.deferredAt.None? || row.deferredAt.value <= now)
  }

  predicate HasWork(row: Row) {
    row.correlatedAt.Some? && row.at < row.correlatedAt.value
  }

  predicate Eligible(row: Row, now: int, lane: Option<string>) {
    Free(row, now) && HasWork(row) && (lane.None? || row.lane == lane.value)
  }

  function Raise(mark: Option<int>, to: Option<int>): Option<int> {
    if to.None? then mark
    else if mark.None? || mark.value < to.value then to
    else mark
  }

  function NewRow(source: Option<string>, priority: int, lane: string, mark: Option<int>): Row {
    Row(source, -1, -1, false, "", None, None, priority, lane, None, mark)
  }

  predicate Owned(row: Row, holder: string) {
    row.leasedBy == Some(holder)
  }

  function Step(row: Row, op: Op): Row {
    match op
    case Subscribe(_, _, priority, lane, mark) =>
      row.(priority := if row.priority < priority then priority else row.priority,
           lane := lane,
           correlatedAt := Raise(row.correlatedAt, mark))
    case Grant(_, holder, _, until) =>
      row.(leasedBy := Some(holder), leasedUntil := Some(until), retry := row.retry + 1)
    case Ack(_, holder, at, retry, due) =>
      if Owned(row, holder) then
        row.(at := at, deferredAt := due, leasedBy := None, leasedUntil := None,
             retry := if due.None? then -1 else retry)
      else row
    case Block(_, holder, error) =>
      if Owned(row, holder) && !row.blocked then row.(blocked := true, error := error, deferredAt := None) else row
    case Defer(_, until) =>
      row.(deferredAt := Some(until), retry := -1)
    case Reset(_) =>
      row.(at := -1, retry := -1, blocked := false, error := "",
           leasedBy := None, leasedUntil := None, deferredAt := None)
    case Unblock(_) =>
      if row.blocked then
        row.(retry := -1, blocked := false, error := "",
             leasedBy := None, leasedUntil := None, deferredAt := None)
      else row
    case Prioritize(_, priority) =>
      row.(priority := priority)
  }

  function Apply(t: Table, op: Op): Table {
    if op.stream in t then t[op.stream := Step(t[op.stream], op)]
    else if op.Subscribe? then t[op.stream := NewRow(op.source, op.priority, op.lane, op.mark)]
    else t
  }

  function Run(t: Table, ops: seq<Op>): Table {
    if ops == [] then t
    else Apply(Run(t, ops[..|ops| - 1]), ops[|ops| - 1])
  }

  // A grant is taken on a row that is free at its own clock.
  predicate Allowed(t: Table, op: Op) {
    op.Grant? ==> op.stream in t && Free(t[op.stream], op.now)
  }

  ghost predicate AllowedAt(t: Table, ops: seq<Op>, i: int) {
    0 <= i < |ops| ==> Allowed(Run(t, ops[..i]), ops[i])
  }

  ghost predicate AllowedRun(t: Table, ops: seq<Op>) {
    forall i :: AllowedAt(t, ops, i)
  }

  lemma RunSnoc(t: Table, ops: seq<Op>, i: nat)
    requires i < |ops|
    ensures Run(t, ops[..i + 1]) == Apply(Run(t, ops[..i]), ops[i])
  {
    assert ops[..i + 1][..i] == ops[..i];
  }

  lemma {:induction false} RunAppend(t: Table, a: seq<Op>, b: seq<Op>)
    ensures Run(t, a + b) == Run(Run(t, a), b)
  {
    if b == [] {
      assert a + b == a;
    } else {
      var n := |b| - 1;
      assert (a + b)[..|a| + n] == a + b[..n];
      RunAppend(t, a, b[..n]);
    }
  }

  lemma AllowedAppend(t: Table, a: seq<Op>, b: seq<Op>)
    requires AllowedRun(t, a) && AllowedRun(Run(t, a), b)
    ensures AllowedRun(t, a + b)
  {
    forall i ensures AllowedAt(t, a + b, i) {
      if 0 <= i < |a| {
        assert AllowedAt(t, a, i) && (a + b)[..i] == a[..i];
      } else if |a| <= i < |a + b| {
        assert AllowedAt(Run(t, a), b, i - |a|);
        assert (a + b)[..i] == a + b[..i - |a|] && (a + b)[i] == b[i - |a|];
        RunAppend(t, a, b[..i - |a|]);
      }
    }
  }

  // ---------------------------------------------------------------- leases

  // A holder and an expiry come and go together.
  ghost predicate Paired(t: Table) {
    forall s :: s in t ==> (t[s].leasedBy.Some? <==> t[s].leasedUntil.Some?)
  }

  lemma {:induction false} RunPaired(t: Table, ops: seq<Op>)
    requires Paired(t)
    ensures Paired(Run(t, ops))
    ensures t.Keys <= Run(t, ops).Keys
  {
    if ops != [] {
      RunPaired(t, ops[..|ops| - 1]);
    }
  }

  // ---------------------------------------------------------------- fencing

  // Each claim brings a holder id of its own.
  ghost predicate FreshHolders(ops: seq<Op>) {
    forall i, j :: 0 <= i < j < |ops| && ops[i].Grant? && ops[j].Grant? && ops[i].stream == ops[j].stream
      ==> ops[i].holder != ops[j].holder
  }

  predicate Holds(t: Table, s: string, holder: string) {
    s in t && Owned(t[s], holder)
  }

  lemma {:induction false} StaysLost(t: Table, ops: seq<Op>, g: nat, lost: nat, n: nat)
    requires FreshHolders(ops)
    requires g < lost <= n <= |ops| && ops[g].Grant?
    requires !Holds(Run(t, ops[..lost]), ops[g].stream, ops[g].holder)
    ensures !Holds(Run(t, ops[..n]), ops[g].stream, ops[g].holder)
  {
    if lost < n {
      StaysLost(t, ops, g, lost, n - 1);
      RunSnoc(t, ops, n - 1);
    }
  }

  // Once a granted lease is lost, to a later claim, an ack, a reset or an
  // unblock, it never comes back, and its holder can finalize nothing.
  lemma FencedOut(t: Table, ops: seq<Op>, g: nat, lost: nat, n: nat)
    requires FreshHolders(ops)
    requires g < lost <= n <= |ops| && ops[g].Grant?
    requires !Holds(Run(t, ops[..lost]), ops[g].stream, ops[g].holder)
    ensures !Holds(Run(t, ops[..n]), ops[g].stream, ops[g].holder)
    ensures forall at, retry, due ::
              Apply(Run(t, ops[..n]), Ack(ops[g].stream, ops[g].holder, at, retry, due)) == Run(t, ops[..n])
    ensures forall error ::
              Apply(Run(t, ops[..n]), Block(ops[g].stream, ops[g].holder, error)) == Run(t, ops[..n])
  {
    StaysLost(t, ops, g, lost, n);
  }

  // The watermark the row had when `ops[g]` leased it.
  function LeasedAt(t: Table, ops: seq<Op>, g: nat): int
    requires g < |ops|
  {
    var before := Run(t, ops[..g]);
    if ops[g].stream in before then before[ops[g].stream].at else -1
  }

  // Holders finalize at or past the watermark they were leased at.
  ghost predicate ForwardAcks(t: Table, ops: seq<Op>) {
    forall g, a :: ForwardAck(t, ops, g, a)
  }

  ghost predicate ForwardAck(t: Table, ops: seq<Op>, g: int, a: int) {
    0 <= g < a < |ops| && ops[g].Grant? && ops[a].Ack?
    && ops[a].stream == ops[g].stream && ops[a].holder == ops[g].holder ==>
      LeasedAt(t, ops, g) <= ops[a].at
  }

  ghost predicate Unleased(t: Table) {
    forall s :: s in t ==> t[s].leasedBy.None?
  }

  // A held lease goes back to a grant, and the watermark has not moved since.
  lemma {:induction false} HeldSince(t: Table, ops: seq<Op>, n: nat, s: string) returns (g: nat)
    requires Unleased(t) && FreshHolders(ops) && AllowedRun(t, ops) && n <= |ops|
    requires s in Run(t, ops[..n]) && Run(t, ops[..n])[s].leasedBy.Some?
    ensures g < n && ops[g].Grant? && ops[g].stream == s
    ensures Owned(Run(t, ops[..n])[s], ops[g].holder)
    ensures LeasedAt(t, ops, g) == Run(t, ops[..n])[s].at
  {
    assert n > 0 by { assert ops[..0] == []; }
    var before, op := Run(t, ops[..n - 1]), ops[n - 1];
    RunSnoc(t, ops, n - 1);
    if op.Grant? && op.stream == s {
      assert AllowedAt(t, ops, n - 1);
      g := n - 1;
    } else {
      assert s in before;
      g := HeldSince(t, ops, n - 1, s);
    }
  }

  // A watermark falls only by a reset.
  lemma WatermarkNeverFalls(t: Table, ops: seq<Op>, n: nat, s: string)
    requires Unleased(t) && FreshHolders(ops) && AllowedRun(t, ops) && ForwardAcks(t, ops)
    requires n < |ops| && s in Run(t, ops[..n])
    requires ops[n] != Reset(s)
    ensures s in Run(t, ops[..n + 1])
    ensures Run(t, ops[..n])[s].at <= Run(t, ops[..n + 1])[s].at
  {
    RunSnoc(t, ops, n);
    var row, op := Run(t, ops[..n])[s], ops[n];
    if op.Ack? && op.stream == s && Owned(row, op.holder) {
      var g := HeldSince(t, ops, n, s);
      assert ForwardAck(t, ops, g, n);
    }
  }

  // With a holder id used twice, a superseded holder does move the row: it
  // acks through the second claim's lease.
  lemma SharedHolderIsNotFenced()
    ensures var row := NewRow(None, 0, "default", Some(9));
            var t := map["s" := row];
            var ops := [Grant("s", "w", 0, 10), Grant("s", "w", 20, 30), Ack("s", "w", 3, 0, None)];
            && AllowedRun(t, ops)
            && "s" in Run(t, ops) && Run(t, ops)["s"].at == 3
  {
    var row := NewRow(None, 0, "default", Some(9));
    var t := map["s" := row];
    var ops := [Grant("s", "w", 0, 10), Grant("s", "w", 20, 30), Ack("s", "w", 3, 0, None)];
    assert ops[..0] == [] && ops[..3] == ops;
    RunSnoc(t, ops, 0);
    RunSnoc(t, ops, 1);
    RunSnoc(t, ops, 2);
    forall i ensures AllowedAt(t, ops, i) {}
  }

  // ---------------------------------------------------------------- marks and blocks

  // No step lowers a work mark, clears it, or changes a row's source.
  lemma {:induction false} MarkNeverFalls(t: Table, ops: seq<Op>, s: string)
    requires s in t
    ensures s in Run(t, ops) && Run(t, ops)[s].source == t[s].source
    ensures t[s].correlatedAt.Some? ==>
              Run(t, ops)[s].correlatedAt.Some? && t[s].correlatedAt.value <= Run(t, ops)[s].correlatedAt.value
  {
    if ops != [] {
      MarkNeverFalls(t, ops[..|ops| - 1], s);
    }
  }

  predicate Frees(op: Op, s: string) {
    op == Reset(s) || op == Unblock(s)
  }

  lemma BlockedStep(t: Table, op: Op, s: string)
    requires s in t && t[s].blocked && Allowed(t, op) && !Frees(op, s)
    ensures s in Apply(t, op) && Apply(t, op)[s].blocked
    ensures op.Grant? ==> op.stream != s
  {
  }

  lemma {:induction false} StaysBlocked(t: Table, ops: seq<Op>, i: nat, n: nat, s: string)
    requires AllowedRun(t, ops) && i <= n <= |ops|
    requires s in Run(t, ops[..i]) && Run(t, ops[..i])[s].blocked
    requires forall j :: i <= j < n ==> !Frees(ops[j], s)
    ensures s in Run(t, ops[..n]) && Run(t, ops[..n])[s].blocked
  {
    if i < n {
      hide Apply, Allowed, Run;
      StaysBlocked(t, ops, i, n - 1, s);
      RunSnoc(t, ops, n - 1);
      assert AllowedAt(t, ops, n - 1) && !Frees(ops[n - 1], s);
      BlockedStep(Run(t, ops[..n - 1]), ops[n - 1], s);
    }
  }

  // A blocked stream is granted to no one until a reset or an unblock.
  lemma BlockedStaysOut(t: Table, ops: seq<Op>, i: nat, n: nat, s: string)
    requires AllowedRun(t, ops) && i <= n < |ops|
    requires s in Run(t, ops[..i]) && Run(t, ops[..i])[s].blocked
    requires forall j :: i <= j < n ==> !Frees(ops[j], s)
    ensures ops[n].Grant? ==> ops[n].stream != s
  {
    StaysBlocked(t, ops, i, n, s);
    assert AllowedAt(t, ops, n);
  }

  // ---------------------------------------------------------------- deferral

  // The due time a step gives a row: a defer's, or that of its owner's ack.
  function DueFrom(t: Table, op: Op, s: string): Option<int> {
    if op.stream != s || s !in t then None
    else if op.Defer? then Some(op.until)
    else if op.Ack? && t[s].leasedBy == Some(op.holder) then op.due
    else None
  }

  // A step that may change it again.
  predicate Reschedules(op: Op, s: string) {
    op.stream == s && (op.Defer? || op.Ack? || op.Block? || op.Reset? || op.Unblock?)
  }

  lemma {:induction false} StaysDeferred(t: Table, ops: seq<Op>, i: nat, n: nat, s: string)
    requires i < n <= |ops| && DueFrom(Run(t, ops[..i]), ops[i], s).Some?
    requires forall j :: i < j < n ==> !Reschedules(ops[j], s)
    ensures s in Run(t, ops[..n])
    ensures Run(t, ops[..n])[s].deferredAt == DueFrom(Run(t, ops[..i]), ops[i], s)
  {
    RunSnoc(t, ops, n - 1);
    if i + 1 < n {
      hide Apply, Run, DueFrom;
      StaysDeferred(t, ops, i, n - 1, s);
      DeferredStep(Run(t, ops[..n - 1]), ops[n - 1], s);
    }
  }

  lemma DeferredStep(t: Table, op: Op, s: string)
    requires s in t && !Reschedules(op, s)
    ensures s in Apply(t, op) && Apply(t, op)[s].deferredAt == t[s].deferredAt
  {
  }

  // A deferred stream is granted to no one before it is due, unless a later
  // step reschedules it.
  lemma DeferredStaysOut(t: Table, ops: seq<Op>, i: nat, n: nat, s: string)
    requires AllowedRun(t, ops) && i < n < |ops| && DueFrom(Run(t, ops[..i]), ops[i], s).Some?
    requires forall j :: i < j < n ==> !Reschedules(ops[j], s)
    ensures ops[n].Grant? && ops[n].stream == s ==> DueFrom(Run(t, ops[..i]), ops[i], s).value <= ops[n].now
  {
    StaysDeferred(t, ops, i, n, s);
    assert AllowedAt(t, ops, n);
  }

  // ---------------------------------------------------------------- finalizing

  // An owner's ack moves the watermark, gives up the lease and sets or clears
  // the schedule; it starts the tries over unless it is due again.
  lemma AckMeans(t: Table, s: string, holder: string, at: int, retry: int, due: Option<int>)
    ensures var t' := Apply(t, Ack(s, holder, at, retry, due));
            if s in t && t[s].leasedBy == Some(holder) then
              var row := t[s];
              && t'.Keys == t.Keys && (forall k :: k in t && k != s ==> t'[k] == t[k])
              && t'[s] == Row(row.source, at, if due.Some? then retry else -1, row.blocked, row.error, None, None,
                              row.priority, row.lane, due, row.correlatedAt)
            else t' == t
  {
  }

  // An owner's block records the error and drops the schedule; the watermark,
  // the tries and the lease stay.
  lemma BlockMeans(t: Table, s: string, holder: string, error: string)
    ensures var t' := Apply(t, Block(s, holder, error));
            if s in t && t[s].leasedBy == Some(holder) && t[s].blocked == false then
              var row := t[s];
              && t'.Keys == t.Keys && (forall k :: k in t && k != s ==> t'[k] == t[k])
              && t'[s] == Row(row.source, row.at, row.retry, true, error, row.leasedBy, row.leasedUntil,
                              row.priority, row.lane, None, row.correlatedAt)
            else t' == t
  {
    if s in t {
      assert t[s := t[s]] == t;
    }
  }

  // ---------------------------------------------------------------- subscribing

  // A new row starts before the log with nothing set but what was given; an
  // existing one takes the higher priority and the later mark of the two, and
  // the lane given, and keeps the rest, its source included.
  lemma SubscribeMeans(t: Table, s: string, source: Option<string>, priority: int, lane: string, mark: Option<int>)
    ensures var t' := Apply(t, Subscribe(s, source, priority, lane, mark));
            && t'.Keys == t.Keys + {s} && (forall k :: k in t && k != s ==> t'[k] == t[k])
            && if s !in t then
                 t'[s] == Row(source, -1, -1, false, "", None, None, priority, lane, None, mark)
               else
                 var row, row' := t[s], t'[s];
                 && row' == row.(priority := row'.priority, lane := lane, correlatedAt := row'.correlatedAt)
                 && row.priority <= row'.priority && priority <= row'.priority && row'.priority in {row.priority, priority}
                 && (row.correlatedAt.Some? ==> row'.correlatedAt.Some? && row.correlatedAt.value <= row'.correlatedAt.value)
                 && (mark.Some? ==> row'.correlatedAt.Some? && mark.value <= row'.correlatedAt.value)
                 && row'.correlatedAt in {row.correlatedAt, mark}
  {
  }

  // ---------------------------------------------------------------- retry

  // The value a step sets `retry` to, for the steps that do.
  function RetrySetTo(t: Table, op: Op, s: string): Option<int> {
    if s != op.stream then None
    else if s !in t then (if op.Subscribe? then Some(-1) else None)
    else
      match op
      case Ack(_, holder, _, retry, due) =>
        if Owned(t[s], holder) then Some(if due.None? then -1 else retry) else None
      case Defer(_, _) => Some(-1)
      case Reset(_) => Some(-1)
      case Unblock(_) => if t[s].blocked then Some(-1) else None
      case _ => None
  }

  ghost predicate KeepsRetry(t: Table, ops: seq<Op>, j: int, s: string) {
    0 <= j < |ops| ==> RetrySetTo(Run(t, ops[..j]), ops[j], s).None?
  }

  function Grants(ops: seq<Op>, s: string): nat {
    if ops == [] then 0
    else Grants(ops[..|ops| - 1], s) + (if ops[|ops| - 1].Grant? && ops[|ops| - 1].stream == s then 1 else 0)
  }

  lemma RetryStep(t: Table, op: Op, s: string)
    requires s in Apply(t, op)
    ensures var set' := RetrySetTo(t, op, s);
            if set'.Some? then Apply(t, op)[s].retry == set'.value
            else s in t && Apply(t, op)[s].retry == t[s].retry + (if op.Grant? && op.stream == s then 1 else 0)
  {
  }

  lemma RetryStays(t: Table, ops: seq<Op>, n: nat, s: string)
    requires 0 < n <= |ops| && KeepsRetry(t, ops, n - 1, s) && s in Run(t, ops[..n - 1])
    ensures s in Run(t, ops[..n])
    ensures Run(t, ops[..n])[s].retry
         == Run(t, ops[..n - 1])[s].retry + (if ops[n - 1].Grant? && ops[n - 1].stream == s then 1 else 0)
  {
    RunSnoc(t, ops, n - 1);
    RetryStep(Run(t, ops[..n - 1]), ops[n - 1], s);
  }

  lemma RetrySets(t: Table, ops: seq<Op>, i: nat, s: string)
    requires i < |ops| && RetrySetTo(Run(t, ops[..i]), ops[i], s).Some?
    ensures s in Run(t, ops[..i + 1])
    ensures Run(t, ops[..i + 1])[s].retry == RetrySetTo(Run(t, ops[..i]), ops[i], s).value
  {
    RunSnoc(t, ops, i);
    RetryStep(Run(t, ops[..i]), ops[i], s);
  }

  lemma GrantsSnoc(ops: seq<Op>, from: nat, n: nat, s: string)
    requires from < n <= |ops|
    ensures Grants(ops[from..n], s)
         == Grants(ops[from..n - 1], s) + (if ops[n - 1].Grant? && ops[n - 1].stream == s then 1 else 0)
  {
    assert ops[from..n][..n - 1 - from] == ops[from..n - 1];
  }

  // A row's retry is its last reset value plus the claims since.
  lemma {:induction false} RetryLaw(t: Table, ops: seq<Op>, i: nat, n: nat, s: string)
    requires i < n <= |ops|
    requires RetrySetTo(Run(t, ops[..i]), ops[i], s).Some?
    requires forall j :: i < j < n ==> KeepsRetry(t, ops, j, s)
    ensures s in Run(t, ops[..n])
    ensures Run(t, ops[..n])[s].retry
         == RetrySetTo(Run(t, ops[..i]), ops[i], s).value + Grants(ops[i + 1..n], s)
  {
    if i + 1 < n {
      RetryLaw(t, ops, i, n - 1, s);
      GrantsSnoc(ops, i + 1, n, s);
      assert KeepsRetry(t, ops, n - 1, s);
      RetryStays(t, ops, n, s);
    } else {
      assert ops[i + 1..n] == [];
      RetrySets(t, ops, i, s);
    }
  }
}
