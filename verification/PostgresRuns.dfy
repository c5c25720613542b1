/** Interleaved Postgres claims as runs of row steps: what is proved of such
    runs -- fencing, the retry law, conservation -- holds of competing workers.
    And when a claim, whose recheck does not look for work again, still grants
    a row that has some. */
module PostgresRuns {
  import opened Seqs
  import opened ClaimSelection
  import opened PostgresClaim
  import Conservation
  import Fairness
  import Paging
  import Steps = SqliteSteps
  import StoreRuns
  import Sub = Subscriptions

  function GrantTo(txn: Txn): string -> Sub.Op
    requires txn.Reading?
  {
    s => Sub.Grant(s, txn.holder, txn.now, txn.now + txn.millis)
  }

  // The row steps an action amounts to.
  ghost function OpsOf(st: State, a: Action): seq<Sub.Op> {
    match a
    case Other(op) => [op]
    case Commit(w) =>
      if TxnOf(st, w).Reading? then Steps.Each(Paging.Ordered(LockedBy(st, w)), GrantTo(TxnOf(st, w))) else []
    case _ => []
  }

  lemma CommitIsRun(st: State, w: Worker)
    requires Inv(st) && Enabled(st, Commit(w))
    ensures Next(st, Commit(w)).t == Sub.Run(st.t, OpsOf(st, Commit(w)))
    ensures Sub.AllowedRun(st.t, OpsOf(st, Commit(w)))
  {
    var rows, op := LockedBy(st, w), GrantTo(TxnOf(st, w));
    var names := Paging.Ordered(rows);
    StoreRuns.OrderedNames(rows);
    forall s | s in names ensures Sub.Allowed(st.t, op(s)) {
      assert s in Steps.Names(names);
      assert LockSound(st, s);
      assert PgFree(st.t[s], TxnOf(st, w).now) && Sub.Free(st.t[s], TxnOf(st, w).now);
    }
    hide Next;
    Steps.EachAllowed(st.t, names, op);
    Steps.OnRowsIsRun(st.t, names, op);
    CommitOnRows(st, w);
  }

  lemma CommitOnRows(st: State, w: Worker)
    requires TxnOf(st, w).Reading?
    ensures Next(st, Commit(w)).t == Steps.OnRows(st.t, LockedBy(st, w), GrantTo(TxnOf(st, w)))
  {
  }

  lemma ActionIsRun(st: State, a: Action)
    requires Inv(st) && Enabled(st, a)
    ensures Next(st, a).t == Sub.Run(st.t, OpsOf(st, a)) && Sub.AllowedRun(st.t, OpsOf(st, a))
  {
    if a.Commit? {
      CommitIsRun(st, a.w);
    } else {
      StoreRuns.NotGranting(st.t, OpsOf(st, a));
      if a.Other? {
        assert [a.op][..0] == [];
      }
    }
  }

  ghost function AllOps(st: State, actions: seq<Action>): seq<Sub.Op> {
    if actions == [] then []
    else
      var n := |actions| - 1;
      AllOps(st, actions[..n]) + OpsOf(Run(st, actions[..n]), actions[n])
  }

  lemma {:induction false} IsRunUpTo(st: State, actions: seq<Action>, n: nat)
    requires Initial(st) && EnabledRun(st, actions) && n <= |actions|
    ensures Run(st, actions[..n]).t == Sub.Run(st.t, AllOps(st, actions[..n]))
    ensures Sub.AllowedRun(st.t, AllOps(st, actions[..n]))
  {
    if n == 0 {
      StoreRuns.NotGranting(st.t, []);
    } else {
      IsRunUpTo(st, actions, n - 1);
      KeptUpTo(st, actions, n - 1);
      RunSnoc(st, actions, n - 1);
      assert EnabledAt(st, actions, n - 1);
      assert actions[..n][..n - 1] == actions[..n - 1];
      var before, ops := Run(st, actions[..n - 1]), AllOps(st, actions[..n - 1]);
      ActionIsRun(before, actions[n - 1]);
      Sub.AllowedAppend(st.t, ops, OpsOf(before, actions[n - 1]));
      Sub.RunAppend(st.t, ops, OpsOf(before, actions[n - 1]));
    }
  }

  // Any interleaving takes the table where an allowed run of row steps does.
  lemma InterleavingIsRun(st: State, actions: seq<Action>)
    requires Initial(st) && EnabledRun(st, actions)
    ensures Run(st, actions).t == Sub.Run(st.t, AllOps(st, actions))
    ensures Sub.AllowedRun(st.t, AllOps(st, actions))
  {
    IsRunUpTo(st, actions, |actions|);
    assert actions[..|actions|] == actions;
  }

  // Every lease competing workers were granted is still carried by its row, or
  // was ended once, properly; and the totals add up.
  lemma WorkersConserve(st: State, actions: seq<Action>, g: nat)
    requires Initial(st) && EnabledRun(st, actions)
    requires g < |AllOps(st, actions)| && AllOps(st, actions)[g].Grant?
    ensures var ops, end := AllOps(st, actions), Run(st, actions).t;
            && (if Conservation.Open(st.t, ops, g, |ops|) then Conservation.Carries(end, ops[g])
                else exists j :: Conservation.EndsFirst(st.t, ops, g, j) && Conservation.EndedProperly(st.t, ops, g, j))
            && Conservation.AllGrants(ops)
               == Conservation.Count(st.t, ops, Conservation.Acked) + Conservation.Count(st.t, ops, Conservation.Deferred)
                  + Conservation.Count(st.t, ops, Conservation.Superseded) + Conservation.Count(st.t, ops, Conservation.Voided)
                  + |Conservation.Held(end)| + |Conservation.HeldBlocked(end)|
  {
    InterleavingIsRun(st, actions);
    Conservation.EveryGrantSettled(st.t, AllOps(st, actions), g);
    Conservation.GrantsConserved(st.t, AllOps(st, actions));
  }

  // When each claim brings a holder id of its own, a holder that has lost its
  // lease finalizes nothing any more.
  lemma WorkersFenced(st: State, actions: seq<Action>, g: nat, lost: nat, finalize: Sub.Op)
    requires Initial(st) && EnabledRun(st, actions)
    requires var ops := AllOps(st, actions);
             && Sub.FreshHolders(ops) && g < lost <= |ops| && ops[g].Grant?
             && !Sub.Holds(Sub.Run(st.t, ops[..lost]), ops[g].stream, ops[g].holder)
             && (finalize.Ack? || finalize.Block?)
             && finalize.stream == ops[g].stream && finalize.holder == ops[g].holder
    ensures Next(Run(st, actions), Other(finalize)).t == Run(st, actions).t
  {
    var ops := AllOps(st, actions);
    InterleavingIsRun(st, actions);
    assert ops[..|ops|] == ops;
    Sub.StaysLost(st.t, ops, g, lost, |ops|);
    LateFinalize(Run(st, actions), finalize);
  }

  lemma LateFinalize(st: State, finalize: Sub.Op)
    requires (finalize.Ack? || finalize.Block?) && !Sub.Holds(st.t, finalize.stream, finalize.holder)
    ensures Next(st, Other(finalize)).t == st.t
  {
  }

  // ---------------------------------------------------------------- candidates

  // Both adapters let the same rows be claimed: on a table whose holders and
  // expiries come and go together, their conditions select the same candidates.
  lemma SameCandidates(t: Sub.Table, now: int, lane: Option<string>)
    requires Sub.Paired(t)
    ensures Candidates(t, now, lane) == Fairness.Candidates(t, now, lane)
    ensures forall s :: s in t ==> (PgFree(t[s], now) <==> Sub.Free(t[s], now))
  {
  }

  // ---------------------------------------------------------------- work at the grant

  // The watermark lands at the mark or past it: by an ack of the row's holder,
  // or by a reset of a row whose mark lies before the log.
  predicate CatchesUp(t: Sub.Table, op: Sub.Op, s: string) {
    && op.stream == s && s in t
    && ((op.Ack? && Sub.Owned(t[s], op.holder)) || op.Reset?)
    && (t[s].correlatedAt.Some? ==> t[s].correlatedAt.value <= if op.Ack? then op.at else -1)
  }

  lemma WorkStep(t: Sub.Table, op: Sub.Op, s: string)
    requires s in t && Sub.HasWork(t[s])
    ensures s in Sub.Apply(t, op) && (Sub.HasWork(Sub.Apply(t, op)[s]) <==> !CatchesUp(t, op, s))
  {
  }

  predicate CatchesUpAt(st: State, a: Action, s: string) {
    a.Other? && CatchesUp(st.t, a.op, s)
  }

  lemma WorkAction(st: State, a: Action, s: string)
    requires s in st.t && Sub.HasWork(st.t[s])
    ensures s in Next(st, a).t && (Sub.HasWork(Next(st, a).t[s]) <==> !CatchesUpAt(st, a, s))
  {
    if a.Other? {
      WorkStep(st.t, a.op, s);
    }
  }

  lemma {:induction false} WorkLasts(st: State, actions: seq<Action>, i: nat, n: nat, s: string)
    requires i <= n <= |actions|
    requires s in Run(st, actions[..i]).t && Sub.HasWork(Run(st, actions[..i]).t[s])
    requires forall j :: i <= j < n ==> !CatchesUpAt(Run(st, actions[..j]), actions[j], s)
    ensures s in Run(st, actions[..n]).t && Sub.HasWork(Run(st, actions[..n]).t[s])
  {
    if i < n {
      hide Next, CatchesUpAt, Sub.HasWork;
      WorkLasts(st, actions, i, n - 1, s);
      assert actions[..n][..n - 1] == actions[..n - 1];
      WorkAction(Run(st, actions[..n - 1]), actions[n - 1], s);
    }
  }

  // A worker holds the row lock throughout (l, n].
  predicate HeldAt(st: State, actions: seq<Action>, w: Worker, s: string, k: int) {
    0 <= k <= |actions| ==> s in LockedBy(Run(st, actions[..k]), w)
  }

  ghost predicate HeldSince(st: State, actions: seq<Action>, w: Worker, s: string, l: int, n: int) {
    forall k :: l < k <= n ==> HeldAt(st, actions, w, s, k)
  }

  // A lock a worker holds goes back to the step that took it.
  lemma {:induction false} LockTaken(st: State, actions: seq<Action>, n: nat, w: Worker, s: string) returns (l: nat)
    requires Initial(st) && n <= |actions| && s in LockedBy(Run(st, actions[..n]), w)
    ensures l < n && actions[l] == Lock(w, s) && HeldSince(st, actions, w, s, l, n)
  {
    assert n > 0 by { assert actions[..0] == []; }
    RunSnoc(st, actions, n - 1);
    if s in LockedBy(Run(st, actions[..n - 1]), w) {
      l := LockTaken(st, actions, n - 1, w, s);
    } else {
      l := n - 1;
    }
  }

  // No enabled step changes a row while its lock stays with one worker.
  lemma LockedRow(st: State, a: Action, w: Worker, s: string)
    requires Enabled(st, a) && s in st.t
    requires s in LockedBy(st, w) && s in LockedBy(Next(st, a), w)
    ensures s in Next(st, a).t && Next(st, a).t[s] == st.t[s]
  {
  }

  lemma {:induction false} LockedRowKept(st: State, actions: seq<Action>, l: nat, n: nat, w: Worker, s: string)
    requires EnabledRun(st, actions) && l < n <= |actions|
    requires actions[l] == Lock(w, s) && HeldSince(st, actions, w, s, l, n)
    ensures s in Run(st, actions[..l]).t && s in Run(st, actions[..n]).t
    ensures Run(st, actions[..n]).t[s] == Run(st, actions[..l]).t[s]
  {
    RunSnoc(st, actions, n - 1);
    assert EnabledAt(st, actions, n - 1);
    if l + 1 < n {
      LockedRowKept(st, actions, l, n - 1, w, s);
      assert HeldAt(st, actions, w, s, n - 1) && HeldAt(st, actions, w, s, n);
      LockedRow(Run(st, actions[..n - 1]), actions[n - 1], w, s);
    }
  }

  // The row passes the recheck of the `locked` CTE at the transaction's clock.
  predicate Rechecked(st: State, w: Worker, s: string) {
    TxnOf(st, w).Reading? && s in st.t && PgFree(st.t[s], TxnOf(st, w).now)
  }

  // The row carries the lease of the worker's transaction, counted from its
  // clock, and one more try; its other columns are as they were.
  predicate GrantedTo(st: State, w: Worker, t: Sub.Table, s: string) {
    && TxnOf(st, w).Reading? && s in st.t && s in t
    && var txn, row := TxnOf(st, w), st.t[s];
       t[s] == row.(leasedBy := Some(txn.holder), leasedUntil := Some(txn.now + txn.millis), retry := row.retry + 1)
  }

  lemma CommitGrants(st: State, w: Worker, s: string)
    requires Inv(st) && Enabled(st, Commit(w)) && s in LockedBy(st, w)
    ensures var t := Next(st, Commit(w)).t;
            && s in st.t && GrantedTo(st, w, t, s)
            && (Sub.HasWork(t[s]) <==> Sub.HasWork(st.t[s]))
  {
    assert LockSound(st, s);
  }

  // A commit grants each row its worker has locked, and a row so granted has
  // work exactly if it had some when the lock was taken: if the recheck under
  // the lock, had it also compared the watermark with the mark, would have let
  // it through.
  lemma GrantHasWorkExactly(st: State, actions: seq<Action>, n: nat, w: Worker, s: string) returns (l: nat)
    requires Initial(st) && EnabledRun(st, actions)
    requires n < |actions| && actions[n] == Commit(w) && s in LockedBy(Run(st, actions[..n]), w)
    ensures l < n && actions[l] == Lock(w, s) && HeldSince(st, actions, w, s, l, n)
    ensures var at, end := Run(st, actions[..l]), Run(st, actions[..n + 1]);
            && Rechecked(at, w, s) && GrantedTo(Run(st, actions[..n]), w, end.t, s)
            && (Sub.HasWork(end.t[s]) <==> Sub.HasWork(at.t[s]))
  {
    l := LockTaken(st, actions, n, w, s);
    LockedRowKept(st, actions, l, n, w, s);
    KeptUpTo(st, actions, n);
    RunSnoc(st, actions, n);
    assert EnabledAt(st, actions, n) && EnabledAt(st, actions, l);
    CommitGrants(Run(st, actions[..n]), w, s);
  }

  // From the read's side: a row picked at `i` is granted with work unless, in
  // between, a step has moved its watermark up to its mark.
  lemma GrantedHasWork(st: State, actions: seq<Action>, i: nat, n: nat, w: Worker, s: string)
    requires Initial(st) && EnabledRun(st, actions) && i < n < |actions|
    requires actions[i].Read? && exists c :: c in Picked(actions[i].pick) && c.stream == s
    requires actions[n] == Commit(w) && s in LockedBy(Run(st, actions[..n]), w)
    requires forall j :: i <= j < n ==> !CatchesUpAt(Run(st, actions[..j]), actions[j], s)
    ensures var end := Run(st, actions[..n + 1]);
            GrantedTo(Run(st, actions[..n]), w, end.t, s) && Sub.HasWork(end.t[s])
  {
    ReadKeepsWork(st, actions, i, n, s);
    KeptUpTo(st, actions, n);
    RunSnoc(st, actions, n);
    assert EnabledAt(st, actions, n);
    CommitGrants(Run(st, actions[..n]), w, s);
  }

  // Whether or not it is granted, a row picked at `i` keeps its work so long.
  lemma ReadKeepsWork(st: State, actions: seq<Action>, i: nat, n: nat, s: string)
    requires EnabledRun(st, actions) && i <= n <= |actions|
    requires i < |actions| && actions[i].Read? && exists c :: c in Picked(actions[i].pick) && c.stream == s
    requires forall j :: i <= j < n ==> !CatchesUpAt(Run(st, actions[..j]), actions[j], s)
    ensures s in Run(st, actions[..n]).t && Sub.HasWork(Run(st, actions[..n]).t[s])
  {
    assert EnabledAt(st, actions, i);
    var before, read := Run(st, actions[..i]), actions[i];
    PickedWithinBudget(read.pick, Candidates(before.t, TxnOf(before, read.w).now, read.lane), read.lagging, read.leading);
    WorkLasts(st, actions, i, n, s);
  }

  // ---------------------------------------------------------------- a grant without work

  const ROW := Sub.Row(None, 0, -1, false, "", None, None, 0, "default", None, Some(9))
  const START := State(0, map["a" := ROW], map[], map[], map[], map[], 0)
  const PICK := Pick({Candidate("a", 0, 0)}, {}, {Candidate("a", 0, 0)})

  // Both workers read the one row that has work. The first is granted it and
  // acks up to its mark; the second still finds it unlocked, unleased and
  // unblocked, and is granted a row with nothing left to do.
  const READS := [Begin(0, "p", 10), Begin(1, "q", 10), Read(0, PICK, 5, 5, None), Read(1, PICK, 5, 5, None)]
  const GRANTS := [Lock(0, "a"), Commit(0), Other(Sub.Ack("a", "p", 9, -1, None)), Lock(1, "a"), Commit(1)]

  lemma OneMore(st: State, actions: seq<Action>, now: State, a: Action)
    requires EnabledRun(st, actions) && Run(st, actions) == now && Enabled(now, a)
    ensures EnabledRun(st, actions + [a]) && Run(st, actions + [a]) == Next(now, a)
  {
    var all := actions + [a];
    assert all[..|actions|] == actions;
    forall i ensures EnabledAt(st, all, i) {
      assert EnabledAt(st, actions, i);
      if 0 <= i < |actions| {
        assert all[..i] == actions[..i];
      }
    }
  }

  lemma ReadsA(st: State, w: Worker)
    requires st.t == map["a" := ROW] && TxnOf(st, w).Began?
    ensures Enabled(st, Read(w, PICK, 5, 5, None))
    ensures Next(st, Read(w, PICK, 5, 5, None)).t == st.t
    ensures TxnOf(Next(st, Read(w, PICK, 5, 5, None)), w)
         == Reading(TxnOf(st, w).now, TxnOf(st, w).holder, TxnOf(st, w).millis, {"a"})
  {
    var c := Candidate("a", 0, 0);
    assert PgFree(st.t["a"], TxnOf(st, w).now) && Sub.HasWork(st.t["a"]) && st.t["a"].at == 0 && st.t["a"].priority == 0;
    assert Candidates(st.t, TxnOf(st, w).now, None) == {c};
    assert {c} - {c} == {} && Picked(PICK) == {c};
  }

  // After both reads.
  const READ := START.(txns := map[0 := Reading(0, "p", 10, {"a"}), 1 := Reading(0, "q", 10, {"a"})])

  lemma BothRead()
    ensures EnabledRun(START, READS) && Run(START, READS) == READ
  {
    hide Direct;
    forall i ensures EnabledAt(START, [], i) {}
    var st1 := Next(START, READS[0]);
    var st2 := Next(st1, READS[1]);
    var st3 := Next(st2, READS[2]);
    OneMore(START, [], START, READS[0]);
    OneMore(START, [] + [READS[0]], st1, READS[1]);
    ReadsA(st2, 0);
    OneMore(START, [] + [READS[0]] + [READS[1]], st2, READS[2]);
    ReadsA(st3, 1);
    OneMore(START, [] + [READS[0]] + [READS[1]] + [READS[2]], st3, READS[3]);
    assert [] + [READS[0]] + [READS[1]] + [READS[2]] + [READS[3]] == READS;
  }

  // A worker with "a" in its slice locks and grants it.
  lemma GrantsA(actions: seq<Action>, st: State, w: Worker, holder: string)
    requires EnabledRun(START, actions) && Run(START, actions) == st
    requires TxnOf(st, w) == Reading(0, holder, 10, {"a"}) && st.locks == map[]
    requires "a" in st.t && PgFree(st.t["a"], 0)
    ensures var all := actions + [Lock(w, "a")] + [Commit(w)];
            var end := Run(START, all);
            && EnabledRun(START, all)
            && end.txns == st.txns[w := Idle] && end.locks == map[] && end.t.Keys == st.t.Keys
            && end.t["a"] == st.t["a"].(leasedBy := Some(holder), leasedUntil := Some(10), retry := st.t["a"].retry + 1)
  {
    var locked := Next(st, Lock(w, "a"));
    assert LockedBy(locked, w) == {"a"};
    OneMore(START, actions, st, Lock(w, "a"));
    OneMore(START, actions + [Lock(w, "a")], locked, Commit(w));
  }

  // The holder acks to the mark.
  lemma AcksA(actions: seq<Action>, st: State)
    requires EnabledRun(START, actions) && Run(START, actions) == st
    requires st.locks == map[] && "a" in st.t && st.t["a"].leasedBy == Some("p")
    ensures var all := actions + [Other(Sub.Ack("a", "p", 9, -1, None))];
            var end := Run(START, all);
            && EnabledRun(START, all)
            && end.txns == st.txns && end.locks == map[] && end.t.Keys == st.t.Keys
            && end.t["a"] == st.t["a"].(at := 9, retry := -1, leasedBy := None, leasedUntil := None, deferredAt := None)
  {
    OneMore(START, actions, st, Other(Sub.Ack("a", "p", 9, -1, None)));
  }

  lemma GrantWithoutWork()
    ensures EnabledRun(START, READS + GRANTS)
    ensures var t := Run(START, READS + GRANTS).t;
            && "a" in t && t["a"].leasedBy == Some("q") && t["a"].leasedUntil == Some(10)
            && !Sub.HasWork(t["a"])
  {
    hide Run, Next, EnabledRun;
    BothRead();
    GrantsA(READS, READ, 0, "p");
    var one := READS + [GRANTS[0]] + [GRANTS[1]];
    AcksA(one, Run(START, one));
    var two := one + [GRANTS[2]];
    GrantsA(two, Run(START, two), 1, "q");
    assert two + [GRANTS[3]] + [GRANTS[4]] == READS + GRANTS;
  }
}
