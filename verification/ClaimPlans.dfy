/** The store property loop: through a plan of commits, claims, ack-alls and
    block-alls by one worker, resolved plus pending equals claimed -- exactly
    while no finalization meets a stream that is pending twice. */
module ClaimPlans {
  import opened Seqs
  import opened Values
  import opened SqliteSteps
  import opened SqliteStore
  import Cor = Correlator
  import Correlate
  import Fairness
  import Log = EventLog
  import Paging
  import Selection = ClaimSelection
  import Sub = Subscriptions
  import WorkMark

  const WORKER := "worker"
  const LEASE_MILLIS := 60000
  const BUDGET := 5
  const LISTED := 100

  // ---------------------------------------------------------------- the loop as a state machine

  datatype Loop = Loop(log: Log.Table, t: Sub.Table, claims: nat, resolved: nat, pending: seq<Lease>)

  // The clock a claim reads for who is free, and again for the expiry.
  datatype Clock = Clock(now: int, later: int)

  // A claim's outcome is open up to ties, so a turn carries it.
  datatype Turn =
    | Commits(stream: string, msgs: seq<Log.Message>, now: int)
    | Claims(clock: Clock, pick: Selection.Pick, leases: seq<Lease>)
    | AckAll
    | BlockAll

  // The highest id, or -1: what `query_streams` reports.
  function Head(log: Log.Table): int {
    if log.rows == [] then -1 else log.rows[|log.rows| - 1].id
  }

  // `mark_all`: every listed row behind the log's head is marked to it.
  function MarkedTo(t: Sub.Table, head: int, listed: set<string>): Sub.Table {
    map s | s in t :: if s in listed then WorkMark.Marked(t[s], head) else t[s]
  }

  ghost function MarkedAll(st: Loop): Sub.Table {
    MarkedTo(st.t, Head(st.log), Correlate.Listed(st.t, LISTED))
  }

  ghost predicate Possible(st: Loop, turn: Turn) {
    turn.Claims? ==>
      var t := MarkedAll(st);
      && Selection.Direct(turn.pick, Fairness.Candidates(t, turn.clock.now, None), BUDGET, BUDGET)
      && LeasesFor(t, turn.leases, Fairness.Streams(Selection.Picked(turn.pick)), WORKER)
      && Flagged(turn.leases, Fairness.Streams(turn.pick.prio + turn.pick.fair))
  }

  function Failing(pending: seq<Lease>): seq<BlockedLease> {
    seq(|pending|, i requires 0 <= i < |pending| => BlockedLease(pending[i], "test"))
  }

  function BlockedStreams(leases: seq<BlockedLease>): set<string> {
    set b | b in leases :: b.lease.stream
  }

  // `pending.filter(p => !done.find(d => d.stream === p.stream))`
  function Unresolved(pending: seq<Lease>, done: set<string>): seq<Lease> {
    Filter((p: Lease) => p.stream !in done, pending)
  }

  ghost function Next(st: Loop, turn: Turn): Loop {
    match turn
    case Commits(stream, msgs, now) => st.(log := Log.Commit(st.log, stream, msgs, None, now))
    case Claims(clock, pick, leases) =>
      st.(t := Fairness.GrantAll(MarkedAll(st), Fairness.Streams(Selection.Picked(pick)), WORKER, clock.now,
                                 clock.later + LEASE_MILLIS),
          claims := st.claims + |leases|,
          pending := st.pending + leases)
    case AckAll =>
      var acked := AckReturned(st.t, st.pending, |st.pending|);
      st.(t := Sub.Run(st.t, Acks(st.pending)),
          resolved := st.resolved + |acked|,
          pending := Unresolved(st.pending, StreamsOf(acked)))
    case BlockAll =>
      var failing := Failing(st.pending);
      var blocked := BlockReturned(st.t, failing, |failing|);
      st.(t := Sub.Run(st.t, Blocks(failing)),
          resolved := st.resolved + |blocked|,
          pending := Unresolved(st.pending, BlockedStreams(blocked)))
  }

  ghost function Run(st: Loop, turns: seq<Turn>): Loop {
    if turns == [] then st else Next(Run(st, turns[..|turns| - 1]), turns[|turns| - 1])
  }

  ghost predicate PossibleAt(st: Loop, turns: seq<Turn>, i: int) {
    0 <= i < |turns| ==> Possible(Run(st, turns[..i]), turns[i])
  }

  ghost predicate PossibleRun(st: Loop, turns: seq<Turn>) {
    forall i :: PossibleAt(st, turns, i)
  }

  lemma RunMore(st: Loop, turns: seq<Turn>, turn: Turn)
    requires PossibleRun(st, turns) && Possible(Run(st, turns), turn)
    ensures PossibleRun(st, turns + [turn]) && Run(st, turns + [turn]) == Next(Run(st, turns), turn)
  {
    var all := turns + [turn];
    assert all[..|turns|] == turns;
    forall i ensures PossibleAt(st, all, i) {
      assert PossibleAt(st, turns, i);
      if 0 <= i < |turns| {
        assert all[..i] == turns[..i];
      }
    }
  }

  lemma PossiblePrefix(st: Loop, turns: seq<Turn>, n: nat)
    requires PossibleRun(st, turns) && n <= |turns|
    ensures PossibleRun(st, turns[..n])
  {
    forall i ensures PossibleAt(st, turns[..n], i) {
      assert PossibleAt(st, turns, i);
      if 0 <= i < n {
        assert turns[..n][..i] == turns[..i];
      }
    }
  }

  // ---------------------------------------------------------------- finalizing

  // Held by the lease's holder, and not blocked.
  predicate Mine(t: Sub.Table, l: Lease) {
    Sub.Holds(t, l.stream, l.holder) && !t[l.stream].blocked && l.due.None?
  }

  ghost predicate AllMine(t: Sub.Table, pending: seq<Lease>) {
    forall i :: 0 <= i < |pending| ==> Mine(t, pending[i]) && pending[i].holder == WORKER
  }

  predicate DistinctStreams(pending: seq<Lease>) {
    forall i, j :: 0 <= i < j < |pending| ==> pending[i].stream != pending[j].stream
  }

  lemma StreamsSnoc(pending: seq<Lease>, n: nat)
    requires 0 < n <= |pending|
    ensures StreamsOf(pending[..n]) == StreamsOf(pending[..n - 1]) + {pending[n - 1].stream}
  {
    assert pending[..n] == pending[..n - 1] + [pending[n - 1]];
  }

  lemma DistinctSnoc(pending: seq<Lease>, n: nat)
    requires 0 < n <= |pending|
    ensures DistinctStreams(pending[..n])
       <==> DistinctStreams(pending[..n - 1]) && pending[n - 1].stream !in StreamsOf(pending[..n - 1])
  {
    var all, last := pending[..n], pending[n - 1].stream;
    assert forall i :: 0 <= i < n - 1 ==> all[i] == pending[..n - 1][i];
    if last in StreamsOf(pending[..n - 1]) {
      var i :| 0 <= i < n - 1 && pending[..n - 1][i].stream == last;
      assert all[i].stream == all[n - 1].stream;
    }
  }

  lemma {:induction false} StreamCount(pending: seq<Lease>, n: nat)
    requires n <= |pending|
    ensures |StreamsOf(pending[..n])| <= n
    ensures |StreamsOf(pending[..n])| == n <==> DistinctStreams(pending[..n])
  {
    if n == 0 {
      assert StreamsOf(pending[..0]) == {};
    } else {
      StreamCount(pending, n - 1);
      StreamsSnoc(pending, n);
      DistinctSnoc(pending, n);
    }
  }

  lemma OneMoreStream(streams: set<string>, s: string)
    ensures |streams + {s}| == |streams| + (if s in streams then 0 else 1)
    ensures s in streams ==> streams + {s} == streams
  {
    if s in streams {
      assert streams + {s} == streams;
    }
  }

  // A finalizing batch leaves the streams it has not reached as they were; an
  // ack has released the others, a block has blocked them.
  ghost predicate FinalRow(t: Sub.Table, pending: seq<Lease>, ops: seq<Sub.Op>, acks: bool, n: nat, s: string)
    requires n <= |pending| == |ops| && s in t
  {
    var now := Sub.Run(t, ops[..n]);
    && s in now
    && (if s in StreamsOf(pending[..n]) then (if acks then now[s].leasedBy.None? else now[s].blocked) else now[s] == t[s])
  }

  predicate Finalizes(op: Sub.Op, l: Lease, acks: bool) {
    (if acks then op.Ack? else op.Block?) && op.stream == l.stream && op.holder == l.holder
  }

  lemma {:induction false} FinalRows(t: Sub.Table, pending: seq<Lease>, ops: seq<Sub.Op>, acks: bool, n: nat, s: string)
    requires n <= |pending| == |ops| && s in t && AllMine(t, pending)
    requires forall i :: 0 <= i < |ops| ==> Finalizes(ops[i], pending[i], acks)
    ensures FinalRow(t, pending, ops, acks, n, s)
  {
    if n == 0 {
      assert ops[..0] == [];
    } else {
      FinalRows(t, pending, ops, acks, n - 1, s);
      assert Finalizes(ops[n - 1], pending[n - 1], acks) && Mine(t, pending[n - 1]);
      FinalRowStep(t, pending, ops, acks, n, s);
    }
  }

  lemma FinalRowStep(t: Sub.Table, pending: seq<Lease>, ops: seq<Sub.Op>, acks: bool, n: nat, s: string)
    requires 0 < n <= |pending| == |ops| && s in t && FinalRow(t, pending, ops, acks, n - 1, s)
    requires Finalizes(ops[n - 1], pending[n - 1], acks) && Mine(t, pending[n - 1])
    ensures FinalRow(t, pending, ops, acks, n, s)
  {
    Sub.RunSnoc(t, ops, n - 1);
    StreamsSnoc(pending, n);
  }

  // An ack of held leases returns each of their streams once.
  lemma {:induction false} AckedOnce(t: Sub.Table, pending: seq<Lease>, n: nat)
    requires n <= |pending| && AllMine(t, pending)
    ensures StreamsOf(AckReturned(t, pending, n)) == StreamsOf(pending[..n])
    ensures |AckReturned(t, pending, n)| == |StreamsOf(pending[..n])|
  {
    if n == 0 {
      assert StreamsOf(pending[..0]) == {};
    } else {
      AckedOnce(t, pending, n - 1);
      assert Mine(t, pending[n - 1]);
      FinalRows(t, pending, Acks(pending), true, n - 1, pending[n - 1].stream);
      AckedSnoc(t, pending, n);
      StreamsSnoc(pending, n);
      OneMoreStream(StreamsOf(pending[..n - 1]), pending[n - 1].stream);
    }
  }

  lemma AckedSnoc(t: Sub.Table, pending: seq<Lease>, n: nat)
    requires 0 < n <= |pending| && Mine(t, pending[n - 1])
    requires FinalRow(t, pending, Acks(pending), true, n - 1, pending[n - 1].stream)
    ensures var before, after := AckReturned(t, pending, n - 1), AckReturned(t, pending, n);
            if pending[n - 1].stream in StreamsOf(pending[..n - 1]) then after == before
            else |after| == |before| + 1 && StreamsOf(after) == StreamsOf(before) + {pending[n - 1].stream}
  {
  }

  // A block of held, unblocked leases does as well.
  lemma {:induction false} BlockedOnce(t: Sub.Table, pending: seq<Lease>, n: nat)
    requires n <= |pending| && AllMine(t, pending)
    ensures BlockedStreams(BlockReturned(t, Failing(pending), n)) == StreamsOf(pending[..n])
    ensures |BlockReturned(t, Failing(pending), n)| == |StreamsOf(pending[..n])|
  {
    if n == 0 {
      assert StreamsOf(pending[..0]) == {};
    } else {
      BlockedOnce(t, pending, n - 1);
      assert Mine(t, pending[n - 1]);
      FinalRows(t, pending, Blocks(Failing(pending)), false, n - 1, pending[n - 1].stream);
      BlockedSnoc(t, pending, n);
      StreamsSnoc(pending, n);
      OneMoreStream(StreamsOf(pending[..n - 1]), pending[n - 1].stream);
    }
  }

  lemma BlockedSnoc(t: Sub.Table, pending: seq<Lease>, n: nat)
    requires 0 < n <= |pending| && Mine(t, pending[n - 1])
    requires FinalRow(t, pending, Blocks(Failing(pending)), false, n - 1, pending[n - 1].stream)
    ensures var before, after := BlockReturned(t, Failing(pending), n - 1), BlockReturned(t, Failing(pending), n);
            if pending[n - 1].stream in StreamsOf(pending[..n - 1]) then after == before
            else |after| == |before| + 1 && BlockedStreams(after) == BlockedStreams(before) + {pending[n - 1].stream}
  {
  }

  // ---------------------------------------------------------------- the count

  // Claims neither resolved nor pending.
  function Lost(st: Loop): int {
    st.claims - st.resolved - |st.pending|
  }

  predicate Final(turn: Turn) {
    turn.AckAll? || turn.BlockAll?
  }

  lemma FinalizeAll(st: Loop, turn: Turn)
    requires AllMine(st.t, st.pending) && Final(turn)
    ensures Next(st, turn).pending == []
    ensures Lost(Next(st, turn)) == Lost(st) + |st.pending| - |StreamsOf(st.pending)|
  {
    var pending := st.pending;
    assert pending[..|pending|] == pending;
    AckedOnce(st.t, pending, |pending|);
    BlockedOnce(st.t, pending, |pending|);
    forall p | p in pending ensures p.stream in StreamsOf(pending) {}
    FilterNone((p: Lease) => p.stream !in StreamsOf(pending), pending);
  }

  lemma PickedFree(t: Sub.Table, p: Selection.Pick, now: int)
    requires Selection.Direct(p, Fairness.Candidates(t, now, None), BUDGET, BUDGET)
    ensures forall s :: s in Fairness.Streams(Selection.Picked(p)) ==> s in t && Sub.Free(t[s], now)
  {
    Selection.PickedWithinBudget(p, Fairness.Candidates(t, now, None), BUDGET, BUDGET);
  }

  lemma ClaimMine(t: Sub.Table, pending: seq<Lease>, leases: seq<Lease>, picked: set<string>, now: int, until: int)
    requires AllMine(t, pending) && LeasesFor(t, leases, picked, WORKER)
    requires forall s :: s in picked ==> s in t && Sub.Free(t[s], now)
    ensures AllMine(Fairness.GrantAll(t, picked, WORKER, now, until), pending + leases)
  {
    var t' := Fairness.GrantAll(t, picked, WORKER, now, until);
    forall i | 0 <= i < |pending| ensures Mine(t', pending[i]) {
      assert Mine(t, pending[i]);
    }
    forall i | 0 <= i < |leases| ensures Mine(t', leases[i]) {
      assert leases[i].due.None? && leases[i].stream in picked;
    }
  }

  lemma MarkedMine(st: Loop)
    requires AllMine(st.t, st.pending)
    ensures AllMine(MarkedAll(st), st.pending)
  {
    forall i | 0 <= i < |st.pending| ensures Mine(MarkedAll(st), st.pending[i]) {
      assert Mine(st.t, st.pending[i]);
    }
  }

  lemma TurnKeepsMine(st: Loop, turn: Turn)
    requires AllMine(st.t, st.pending) && Possible(st, turn)
    ensures AllMine(Next(st, turn).t, Next(st, turn).pending)
    ensures !Final(turn) ==> Lost(Next(st, turn)) == Lost(st)
  {
    if turn.Claims? {
      PickedFree(MarkedAll(st), turn.pick, turn.clock.now);
      MarkedMine(st);
      ClaimMine(MarkedAll(st), st.pending, turn.leases, Fairness.Streams(Selection.Picked(turn.pick)),
                turn.clock.now, turn.clock.later + LEASE_MILLIS);
    } else if Final(turn) {
      FinalizeAll(st, turn);
    }
  }

  // The turn at `i` finalizes a stream that is pending twice.
  ghost predicate TwiceAt(st: Loop, turns: seq<Turn>, i: int) {
    0 <= i < |turns| && Final(turns[i]) && !DistinctStreams(Run(st, turns[..i]).pending)
  }

  ghost predicate NeverTwice(st: Loop, turns: seq<Turn>) {
    forall i :: !TwiceAt(st, turns, i)
  }

  // No claim is counted twice, and none is lost exactly while no finalization
  // meets a stream pending twice.
  lemma {:induction false} CountKeptExactly(st: Loop, turns: seq<Turn>)
    requires AllMine(st.t, st.pending) && Lost(st) == 0 && PossibleRun(st, turns)
    ensures AllMine(Run(st, turns).t, Run(st, turns).pending)
    ensures Lost(Run(st, turns)) >= 0
    ensures Lost(Run(st, turns)) == 0 <==> NeverTwice(st, turns)
  {
    if turns != [] {
      var n := |turns| - 1;
      PossiblePrefix(st, turns, n);
      CountKeptExactly(st, turns[..n]);
      assert PossibleAt(st, turns, n);
      var before := Run(st, turns[..n]);
      TurnKeepsMine(before, turns[n]);
      TwiceSnoc(st, turns, n);
      if Final(turns[n]) {
        FinalizeAll(before, turns[n]);
        StreamCount(before.pending, |before.pending|);
        assert before.pending[..|before.pending|] == before.pending;
      }
    }
  }

  lemma TwiceSnoc(st: Loop, turns: seq<Turn>, n: nat)
    requires |turns| == n + 1
    ensures NeverTwice(st, turns) <==> NeverTwice(st, turns[..n]) && !TwiceAt(st, turns, n)
  {
    forall i | 0 <= i < n ensures TwiceAt(st, turns, i) <==> TwiceAt(st, turns[..n], i) {
      assert turns[..n][..i] == turns[..i];
    }
    if NeverTwice(st, turns[..n]) && !TwiceAt(st, turns, n) {
      forall i ensures !TwiceAt(st, turns, i) {
        assert !TwiceAt(st, turns[..n], i);
      }
    }
    if NeverTwice(st, turns) {
      forall i ensures !TwiceAt(st, turns[..n], i) {
        assert !TwiceAt(st, turns, i);
      }
    }
  }

  // ---------------------------------------------------------------- within one lease

  // Every lease in the table outlives `horizon`.
  ghost predicate Outlives(t: Sub.Table, horizon: int) {
    forall s :: s in t && t[s].leasedBy.Some? ==> t[s].leasedUntil.Some? && horizon < t[s].leasedUntil.value
  }

  // Claims up to `horizon` whose leases outlive it.
  predicate WithinOneLease(turns: seq<Turn>, horizon: int) {
    forall i :: 0 <= i < |turns| && turns[i].Claims? ==>
      turns[i].clock.now <= horizon < turns[i].clock.later + LEASE_MILLIS
  }

  lemma {:induction false} FinalizesOutlive(t: Sub.Table, ops: seq<Sub.Op>, horizon: int)
    requires Outlives(t, horizon) && forall i :: 0 <= i < |ops| ==> ops[i].Ack? || ops[i].Block?
    ensures Outlives(Sub.Run(t, ops), horizon)
  {
    if ops != [] {
      FinalizesOutlive(t, ops[..|ops| - 1], horizon);
    }
  }

  // Only free rows are granted, and a row with an unexpired lease is not free.
  lemma ClaimDistinct(t: Sub.Table, pending: seq<Lease>, leases: seq<Lease>, picked: set<string>,
                      clock: Clock, horizon: int)
    requires AllMine(t, pending) && DistinctStreams(pending) && Outlives(t, horizon)
    requires LeasesFor(t, leases, picked, WORKER) && clock.now <= horizon < clock.later + LEASE_MILLIS
    requires forall s :: s in picked ==> s in t && Sub.Free(t[s], clock.now)
    ensures DistinctStreams(pending + leases)
    ensures Outlives(Fairness.GrantAll(t, picked, WORKER, clock.now, clock.later + LEASE_MILLIS), horizon)
  {
    forall i, j | 0 <= i < |pending| && 0 <= j < |leases| ensures pending[i].stream != leases[j].stream {
      assert Mine(t, pending[i]) && leases[j].stream in picked;
    }
  }

  lemma TurnDistinct(st: Loop, turn: Turn, horizon: int)
    requires AllMine(st.t, st.pending) && DistinctStreams(st.pending) && Outlives(st.t, horizon)
    requires Possible(st, turn) && WithinOneLease([turn], horizon)
    ensures DistinctStreams(Next(st, turn).pending) && Outlives(Next(st, turn).t, horizon)
  {
    if turn.Claims? {
      assert [turn][0].Claims?;
      ClaimTurnDistinct(st, turn, horizon);
    } else if Final(turn) {
      FinalizeAll(st, turn);
      FinalizesOutlive(st.t, Acks(st.pending), horizon);
      FinalizesOutlive(st.t, Blocks(Failing(st.pending)), horizon);
    }
  }

  lemma MarkedOutlives(st: Loop, horizon: int)
    requires Outlives(st.t, horizon)
    ensures Outlives(MarkedAll(st), horizon)
  {
  }

  lemma ClaimTurnDistinct(st: Loop, turn: Turn, horizon: int)
    requires AllMine(st.t, st.pending) && DistinctStreams(st.pending) && Outlives(st.t, horizon)
    requires turn.Claims? && Possible(st, turn) && turn.clock.now <= horizon < turn.clock.later + LEASE_MILLIS
    ensures DistinctStreams(Next(st, turn).pending) && Outlives(Next(st, turn).t, horizon)
  {
    hide Selection.Direct;
    var t := MarkedAll(st);
    PickedFree(t, turn.pick, turn.clock.now);
    MarkedMine(st);
    MarkedOutlives(st, horizon);
    ClaimDistinct(t, st.pending, turn.leases, Fairness.Streams(Selection.Picked(turn.pick)), turn.clock, horizon);
  }

  // A run that ends before its leases do never finalizes a stream twice.
  lemma {:induction false} OneLeaseNeverTwice(st: Loop, turns: seq<Turn>, horizon: int)
    requires AllMine(st.t, st.pending) && DistinctStreams(st.pending) && Outlives(st.t, horizon)
    requires PossibleRun(st, turns) && WithinOneLease(turns, horizon)
    ensures NeverTwice(st, turns)
    ensures var end := Run(st, turns);
            AllMine(end.t, end.pending) && DistinctStreams(end.pending) && Outlives(end.t, horizon)
  {
    if turns != [] {
      var n := |turns| - 1;
      PossiblePrefix(st, turns, n);
      OneLeaseNeverTwice(st, turns[..n], horizon);
      assert PossibleAt(st, turns, n);
      TwiceSnoc(st, turns, n);
      TurnKeepsMine(Run(st, turns[..n]), turns[n]);
      TurnDistinct(Run(st, turns[..n]), turns[n], horizon);
    }
  }

  // ---------------------------------------------------------------- a run that outlives a lease

  const START := Loop(Log.Table([], 0), map["a" := Sub.NewRow(None, 0, "default", None)], 0, 0, [])
  const CANDIDATE := Selection.Candidate("a", -1, 0)
  const PICK := Selection.Pick({CANDIDATE}, {}, {CANDIDATE})

  // What claiming the one stream "a" hands out.
  function LeaseOf(retry: int): seq<Lease> {
    [Lease("a", None, -1, WORKER, retry, true, "default", None)]
  }

  // One event is committed and claimed; the lease expires and the same stream
  // is claimed again; then everything pending is finalized.
  function Outlasting(last: Turn): seq<Turn> {
    TWICE + [last]
  }

  // Two claims, one resolved, none pending.
  lemma OutlivedLeaseLosesCount(last: Turn)
    requires Final(last)
    ensures PossibleRun(START, Outlasting(last))
    ensures var end := Run(START, Outlasting(last)); end.claims == 2 && end.resolved == 1 && end.pending == []
  {
    hide Run, Next, PossibleRun, AllMine;
    ClaimedTwice();
    LastTurn(START, TWICE, last);
    assert StreamsOf(LeaseOf(0) + LeaseOf(1)) == {"a"};
  }

  lemma LastTurn(st: Loop, turns: seq<Turn>, last: Turn)
    requires PossibleRun(st, turns) && Final(last)
    requires AllMine(Run(st, turns).t, Run(st, turns).pending)
    ensures PossibleRun(st, turns + [last])
    ensures var before, end := Run(st, turns), Run(st, turns + [last]);
            end.claims == before.claims && end.pending == []
            && end.resolved == before.resolved + |StreamsOf(before.pending)|
  {
    RunMore(st, turns, last);
    FinalizeAll(Run(st, turns), last);
  }

  const TWICE := [Commits("a", [Log.Message("e", EMPTY)], 0), Claims(Clock(0, 0), PICK, LeaseOf(0)),
                  Claims(Clock(LEASE_MILLIS, LEASE_MILLIS), PICK, LeaseOf(1))]

  lemma ClaimedTwice()
    ensures PossibleRun(START, TWICE)
    ensures var st := Run(START, TWICE);
            && st.claims == 2 && st.resolved == 0 && st.pending == LeaseOf(0) + LeaseOf(1)
            && AllMine(st.t, st.pending)
  {
    hide Selection.Direct, LeasesFor, AllMine;
    ClaimedOnce();
    var st := Run(START, TWICE[..2]);
    OnlyA(st, TWICE[2], 1);
    RunMore(START, TWICE[..2], TWICE[2]);
    assert TWICE[..2] + [TWICE[2]] == TWICE;
    TwoHeld(Next(st, TWICE[2]).t);
  }

  lemma TwoHeld(t: Sub.Table)
    requires "a" in t && t["a"].leasedBy == Some(WORKER) && !t["a"].blocked
    ensures AllMine(t, LeaseOf(0) + LeaseOf(1))
  {
  }

  lemma ClaimedOnce()
    ensures PossibleRun(START, TWICE[..2])
    ensures var st := Run(START, TWICE[..2]);
            && Head(st.log) == 1 && st.claims == 1 && st.resolved == 0 && st.pending == LeaseOf(0)
            && st.t == map["a" := Sub.Row(None, -1, 0, false, "", Some(WORKER), Some(LEASE_MILLIS), 0, "default", None, Some(1))]
  {
    hide Selection.Direct, LeasesFor;
    forall i ensures PossibleAt(START, [], i) {}
    RunMore(START, [], TWICE[0]);
    var st := Next(START, TWICE[0]);
    assert Head(st.log) == 1;
    OnlyA(st, TWICE[1], 0);
    RunMore(START, [] + [TWICE[0]], TWICE[1]);
    assert [] + [TWICE[0]] + [TWICE[1]] == TWICE[..2];
  }

  // With "a" alone, behind the head and free, a claim picks it.
  lemma OnlyA(st: Loop, turn: Turn, retry: int)
    requires st.t.Keys == {"a"} && Head(st.log) == 1
    requires st.t["a"] == st.t["a"].(source := None, at := -1, retry := retry - 1, priority := 0, lane := "default")
    requires turn.Claims? && Sub.Free(st.t["a"], turn.clock.now) && turn.pick == PICK && turn.leases == LeaseOf(retry)
    requires st.t["a"].correlatedAt in {None, Some(1)}
    ensures Possible(st, turn)
    ensures Next(st, turn) ==
              st.(t := map["a" := st.t["a"].(correlatedAt := Some(1), leasedBy := Some(WORKER),
                                            leasedUntil := Some(turn.clock.later + LEASE_MILLIS), retry := retry)],
                  claims := st.claims + 1, pending := st.pending + LeaseOf(retry))
  {
    var t := MarkedAll(st);
    Paging.OrderedSound(st.t.Keys);
    assert |st.t.Keys| == 1;
    assert Paging.Ordered(st.t.Keys)[0] in Paging.Ordered(st.t.Keys);
    assert Correlate.Listed(st.t, LISTED) == {"a"};
    assert t == map["a" := st.t["a"].(correlatedAt := Some(1))];
    assert Sub.Eligible(t["a"], turn.clock.now, None) && t["a"].at == -1 && t["a"].priority == 0;
    assert Fairness.Candidates(t, turn.clock.now, None) == {CANDIDATE};
    assert LeaseOf(retry)[0].stream == "a";
    assert PICK.prio + PICK.fair == {CANDIDATE};
    assert {CANDIDATE} - {CANDIDATE} == {};
    assert Selection.Picked(PICK) == {CANDIDATE};
    assert Fairness.Streams({CANDIDATE}) == {"a"};
  }

  // ---------------------------------------------------------------- the loop on the store

  method MarksTo(store: SqliteStore, rows: seq<string>, head: int) returns (marks: seq<Subscription>)
    requires forall i :: 0 <= i < |rows| ==> rows[i] in store.streams && rows[i] !in rows[..i]
    ensures Sub.Run(store.streams, Subscribes(marks)) == MarkedTo(store.streams, head, Names(rows))
    ensures forall k :: 0 <= k < |marks| ==> marks[k].source.None?
  {
    ghost var t := store.streams;
    marks := [];
    assert MarkedTo(t, head, {}) == t;
    for i := 0 to |rows|
      invariant Sub.Run(t, Subscribes(marks)) == MarkedTo(t, head, Names(rows[..i]))
      invariant forall k :: 0 <= k < |marks| ==> marks[k].source.None?
    {
      var s := rows[i];
      var row := store.streams[s];
      NamesSnoc(rows, i);
      Correlate.MarkOne(t, marks, s, head);
      assert MarkedTo(t, head, Names(rows[..i]))[s := WorkMark.Marked(row, head)] == MarkedTo(t, head, Names(rows[..i + 1]));
      marks := marks + Correlate.MarkOf(row, s, head);
    }
    assert rows[..|rows|] == rows;
  }

  // `mark_all`, which subscribes whatever it has, even nothing.
  method MarkAll(store: SqliteStore, now: int)
    requires Sub.Paired(store.streams) && Cor.UnderShared(store.correlated)
    modifies store`streams, store`correlated
    ensures Sub.Paired(store.streams)
    ensures store.streams == MarkedTo(old(store.streams), Head(store.Events()), Correlate.Listed(old(store.streams), LISTED))
    ensures store.correlated == old(store.correlated)
  {
    hide MarkedTo, Correlate.Listed;
    var rows := Paging.NamePage(store.streams.Keys, None, LISTED);
    Correlate.Listing(store.streams, rows, LISTED);
    var head := if store.events == [] then -1 else store.events[|store.events| - 1].id;
    var marks := MarksTo(store, rows, head);
    Correlate.Send(store, marks, now);
  }

  // One turn of the loop, as a claim takes it.
  method ClaimMore(store: SqliteStore, clock: Clock, ghost st: Loop) returns (claimed: seq<Lease>, ghost turn: Turn)
    requires store.Valid() && st.log == store.Events() && st.t == store.streams
    modifies store`streams, store`correlated
    ensures store.Valid()
    ensures turn.Claims? && turn.clock == clock && turn.leases == claimed && Possible(st, turn)
    ensures store.streams == Next(st, turn).t && store.correlated == old(store.correlated)
  {
    hide Selection.Direct, LeasesFor, Flagged, Log.Valid;
    MarkAll(store, clock.now);
    ghost var p;
    claimed, p := store.Claim(BUDGET, BUDGET, WORKER, LEASE_MILLIS, None, clock.now, clock.later);
    turn := Claims(clock, p, claimed);
  }

  datatype PlanOp = DoCommit(stream: string, msgs: seq<Log.Message>) | DoClaim | DoAckAll | DoBlockAll

  // A turn carries out an operation of the plan.
  predicate CarriesOut(turn: Turn, op: PlanOp, clock: Clock) {
    match op
    case DoCommit(stream, msgs) => turn == Commits(stream, msgs, clock.now)
    case DoClaim => turn.Claims? && turn.clock == clock
    case DoAckAll => turn == AckAll
    case DoBlockAll => turn == BlockAll
  }

  method AckPending(store: SqliteStore, pending: seq<Lease>) returns (rest: seq<Lease>, resolved: nat)
    requires Sub.Paired(store.streams)
    modifies store`streams
    ensures Sub.Paired(store.streams) && store.streams == Sub.Run(old(store.streams), Acks(pending))
    ensures var acked := AckReturned(old(store.streams), pending, |pending|);
            resolved == |acked| && rest == Unresolved(pending, StreamsOf(acked))
  {
    var acked := store.Ack(pending);
    rest, resolved := Unresolved(pending, StreamsOf(acked)), |acked|;
  }

  method BlockPending(store: SqliteStore, pending: seq<Lease>) returns (rest: seq<Lease>, resolved: nat)
    requires Sub.Paired(store.streams)
    modifies store`streams
    ensures Sub.Paired(store.streams) && store.streams == Sub.Run(old(store.streams), Blocks(Failing(pending)))
    ensures var blocked := BlockReturned(old(store.streams), Failing(pending), |Failing(pending)|);
            resolved == |blocked| && rest == Unresolved(pending, BlockedStreams(blocked))
  {
    var blocked := store.Block(Failing(pending));
    rest, resolved := Unresolved(pending, BlockedStreams(blocked)), |blocked|;
  }

  method CommitMore(store: SqliteStore, stream: string, msgs: seq<Log.Message>, now: int, ghost st: Loop)
    requires store.Valid() && st.log == store.Events() && st.t == store.streams
    modifies store`events, store`sequence
    ensures store.Valid()
    ensures Next(st, Commits(stream, msgs, now)) == st.(log := store.Events())
  {
    var r := store.Commit(stream, msgs, None, now);
  }

  // One operation of the plan.
  method Perform(store: SqliteStore, op: PlanOp, clock: Clock, pending: seq<Lease>, ghost st: Loop)
    returns (claimed: nat, resolved: nat, rest: seq<Lease>, ghost turn: Turn)
    requires store.Valid() && st.log == store.Events() && st.t == store.streams && st.pending == pending
    modifies store
    ensures store.Valid() && Possible(st, turn) && CarriesOut(turn, op, clock)
    ensures Next(st, turn) == Loop(store.Events(), store.streams, st.claims + claimed, st.resolved + resolved, rest)
  {
    hide Selection.Direct, LeasesFor, Flagged, Log.Valid, MarkedTo, Correlate.Listed;
    claimed, resolved, rest := 0, 0, pending;
    match op
    case DoCommit(stream, msgs) =>
      turn := Commits(stream, msgs, clock.now);
      CommitMore(store, stream, msgs, clock.now, st);
    case DoClaim =>
      var leases;
      leases, turn := ClaimMore(store, clock, st);
      claimed, rest := |leases|, pending + leases;
    case DoAckAll =>
      turn := AckAll;
      rest, resolved := AckPending(store, pending);
    case DoBlockAll =>
      turn := BlockAll;
      rest, resolved := BlockPending(store, pending);
  }

  // The loop of the suite. It ends as some run of the state machine ends that
  // carries out its plan, and keeps its count exactly while that run finalizes
  // no stream pending twice.
  method NothingLost(store: SqliteStore, plan: seq<PlanOp>, clocks: seq<Clock>)
    returns (totalClaims: nat, totalResolved: nat, pending: seq<Lease>, ghost turns: seq<Turn>)
    requires store.Valid() && |clocks| == |plan|
    modifies store
    ensures var st := Loop(old(store.Events()), old(store.streams), 0, 0, []);
            && |turns| == |plan| && (forall i :: 0 <= i < |plan| ==> CarriesOut(turns[i], plan[i], clocks[i]))
            && PossibleRun(st, turns)
            && Run(st, turns) == Loop(store.Events(), store.streams, totalClaims, totalResolved, pending)
            && totalResolved + |pending| <= totalClaims
            && (totalResolved + |pending| == totalClaims <==> NeverTwice(st, turns))
  {
    hide Next, Possible;
    totalClaims, totalResolved, pending, turns := 0, 0, [], [];
    ghost var st := Loop(store.Events(), store.streams, 0, 0, []);
    forall i ensures PossibleAt(st, [], i) {}
    for i := 0 to |plan|
      invariant store.Valid() && |turns| == i && PossibleRun(st, turns)
      invariant forall k :: 0 <= k < i ==> CarriesOut(turns[k], plan[k], clocks[k])
      invariant Run(st, turns) == Loop(store.Events(), store.streams, totalClaims, totalResolved, pending)
    {
      var claimed, resolved;
      ghost var turn;
      claimed, resolved, pending, turn := Perform(store, plan[i], clocks[i], pending, Run(st, turns));
      RunMore(st, turns, turn);
      turns := turns + [turn];
      totalClaims, totalResolved := totalClaims + claimed, totalResolved + resolved;
    }
    CountKeptExactly(st, turns);
  }
}
