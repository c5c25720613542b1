/** Competing workers on Postgres. A claim is not atomic: it reads candidates
    from a snapshot without locks, locks the rows of its slice one by one while
    rechecking them, and updates at commit, all against the clock its
    transaction started at. Other workers' steps fall in between. */
module PostgresClaim {
  import opened Seqs
  import opened Subscriptions
  import opened ClaimSelection

  type Worker = nat

  datatype Txn =
    | Idle
    | Began(now: int, holder: string, millis: int)
    | Reading(now: int, holder: string, millis: int, slice: set<string>)

  // The ledger of leases handed out, by stream and serial number: it only
  // records, no step consults it.
  datatype Lease = Lease(holder: string, until: int, released: bool)

  datatype State = State(
    clock: int,
    t: Table,
    txns: map<Worker, Txn>,
    locks: map<string, Worker>,
    ledger: map<(string, nat), Lease>,
    current: map<string, nat>,
    serial: nat)

  datatype Action =
    | Tick(to: int)
    | Begin(w: Worker, holder: string, millis: int)
    | Read(w: Worker, pick: Pick, lagging: nat, leading: nat, lane: Option<string>)
    | Lock(w: Worker, stream: string)
    | Commit(w: Worker)
    | Rollback(w: Worker)
    | Other(op: Op)

  // The predicate of the `locked` CTE. It does not look for work again.
  predicate PgFree(row: Row, now: int) {
    && !row.blocked
    && (row.leasedBy.None? || (row.leasedUntil.Some? && row.leasedUntil.value <= now))
    && (row.deferredAt.None? || row.deferredAt.value <= now)
  }

  function Candidates(t: Table, now: int, lane: Option<string>): set<Candidate> {
    set s | s in t && PgFree(t[s], now) && HasWork(t[s]) && (lane.None? || t[s].lane == lane.value)
      :: Candidate(s, t[s].at, t[s].priority)
  }

  function TxnOf(st: State, w: Worker): Txn {
    if w in st.txns then st.txns[w] else Idle
  }

  function LockedBy(st: State, w: Worker): set<string> {
    set s | s in st.locks && st.locks[s] == w
  }

  ghost predicate Enabled(st: State, a: Action) {
    match a
    case Tick(to) => st.clock <= to
    case Begin(w, _, _) => TxnOf(st, w).Idle?
    case Read(w, pick, lagging, leading, lane) =>
      TxnOf(st, w).Began? && Direct(pick, Candidates(st.t, TxnOf(st, w).now, lane), lagging, leading)
    case Lock(w, s) =>
      // SKIP LOCKED, and the recheck against the row as it is now
      && TxnOf(st, w).Reading? && s in TxnOf(st, w).slice && s !in st.locks
      && s in st.t && PgFree(st.t[s], TxnOf(st, w).now)
    case Commit(w) => TxnOf(st, w).Reading?
    case Rollback(w) => true
    case Other(op) => !op.Grant? && op.stream !in st.locks
  }

  // A step that takes the row's lease away without granting another.
  predicate Releases(t: Table, op: Op) {
    op.stream in t && t[op.stream].leasedBy.Some? && Step(t[op.stream], op).leasedBy.None?
  }

  function Next(st: State, a: Action): State {
    match a
    case Tick(to) => st.(clock := to)
    case Begin(w, holder, millis) => st.(txns := st.txns[w := Began(st.clock, holder, millis)])
    case Read(w, pick, _, _, _) =>
      var txn := TxnOf(st, w);
      if txn.Began? then
        st.(txns := st.txns[w := Reading(txn.now, txn.holder, txn.millis, set c | c in Picked(pick) :: c.stream)])
      else st
    case Lock(w, s) => st.(locks := st.locks[s := w])
    case Commit(w) =>
      var txn := TxnOf(st, w);
      if txn.Reading? then Granted(st, w, txn) else st
    case Rollback(w) =>
      st.(txns := st.txns[w := Idle], locks := st.locks - LockedBy(st, w))
    case Other(op) =>
      var k := (op.stream, if op.stream in st.current then st.current[op.stream] else 0);
      st.(t := Apply(st.t, op),
          ledger := if Releases(st.t, op) && k in st.ledger
                    then st.ledger[k := st.ledger[k].(released := true)] else st.ledger)
  }

  function Granted(st: State, w: Worker, txn: Txn): State
    requires txn.Reading?
  {
    var rows := LockedBy(st, w);
    var until := txn.now + txn.millis;
    st.(t := map s | s in st.t ::
          if s in rows then Step(st.t[s], Grant(s, txn.holder, txn.now, until)) else st.t[s],
        txns := st.txns[w := Idle],
        locks := st.locks - rows,
        ledger := st.ledger + map s | s in rows :: (s, st.serial) := Lease(txn.holder, until, false),
        current := st.current + map s | s in rows :: st.serial,
        serial := st.serial + 1)
  }

  function Run(st: State, actions: seq<Action>): State {
    if actions == [] then st else Next(Run(st, actions[..|actions| - 1]), actions[|actions| - 1])
  }

  ghost predicate EnabledAt(st: State, actions: seq<Action>, i: int) {
    0 <= i < |actions| ==> Enabled(Run(st, actions[..i]), actions[i])
  }

  ghost predicate EnabledRun(st: State, actions: seq<Action>) {
    forall i :: EnabledAt(st, actions, i)
  }

  ghost predicate Initial(st: State) {
    st.txns == map[] && st.locks == map[] && st.ledger == map[] && st.current == map[]
    && Unleased(st.t) && Paired(st.t)
  }

  // ---------------------------------------------------------------- invariant

  // The lease behind an entry is the one the row carries now.
  predicate Backs(st: State, s: string, k: nat) {
    && (s, k) in st.ledger
    && s in st.current && st.current[s] == k
    && s in st.t
    && st.t[s].leasedBy == Some(st.ledger[(s, k)].holder)
    && st.t[s].leasedUntil == Some(st.ledger[(s, k)].until)
  }

  predicate Settled(st: State, s: string, k: nat) {
    (s, k) in st.ledger ==>
      || st.ledger[(s, k)].released
      || st.ledger[(s, k)].until <= st.clock
      || Backs(st, s, k)
  }

  predicate LockSound(st: State, s: string) {
    s in st.locks ==>
      && TxnOf(st, st.locks[s]).Reading?
      && s in st.t && PgFree(st.t[s], TxnOf(st, st.locks[s]).now)
  }

  predicate ClockSound(st: State, w: Worker) {
    TxnOf(st, w).Idle? || TxnOf(st, w).now <= st.clock
  }

  ghost predicate Inv(st: State) {
    && Paired(st.t)
    && (forall s :: LockSound(st, s))
    && (forall s, k :: Settled(st, s, k))
    && (forall w :: ClockSound(st, w))
    && (forall s, k :: (s, k) in st.ledger ==> k < st.serial)
    && (forall s :: s in st.t && st.t[s].leasedBy.Some? ==> s in st.current && Backs(st, s, st.current[s]))
  }

  lemma CommitLocks(st: State, w: Worker, s: string)
    requires LockSound(st, s) && TxnOf(st, w).Reading?
    ensures LockSound(Next(st, Commit(w)), s)
  {
  }

  lemma CommitSettles(st: State, w: Worker, s: string, k: nat)
    requires LockSound(st, s) && Settled(st, s, k) && TxnOf(st, w).Reading? && ClockSound(st, w)
    requires Paired(st.t) && ((s, k) in st.ledger ==> k < st.serial)
    ensures Settled(Next(st, Commit(w)), s, k)
  {
    var st' := Next(st, Commit(w));
    if s in LockedBy(st, w) && k == st.serial {
      assert st'.ledger[(s, k)] == Lease(TxnOf(st, w).holder, TxnOf(st, w).now + TxnOf(st, w).millis, false);
    }
  }

  lemma CommitBacks(st: State, w: Worker, s: string)
    requires LockSound(st, s) && TxnOf(st, w).Reading?
    requires s in st.t && st.t[s].leasedBy.Some? ==> s in st.current && Backs(st, s, st.current[s])
    requires forall k :: (s, k) in st.ledger ==> k < st.serial
    ensures var st' := Next(st, Commit(w));
            s in st'.t && st'.t[s].leasedBy.Some? ==> s in st'.current && Backs(st', s, st'.current[s])
  {
    var st' := Next(st, Commit(w));
    if s in LockedBy(st, w) {
      assert (s, st.serial) in st'.ledger;
    }
  }

  lemma CommitKeeps(st: State, w: Worker)
    requires Inv(st) && Enabled(st, Commit(w))
    ensures Inv(Next(st, Commit(w)))
  {
    var st' := Next(st, Commit(w));
    assert ClockSound(st, w);
    forall x ensures ClockSound(st', x) {
      assert ClockSound(st, x);
    }
    forall s ensures LockSound(st', s) {
      assert LockSound(st, s);
      CommitLocks(st, w, s);
    }
    forall s, k ensures Settled(st', s, k) {
      assert LockSound(st, s) && Settled(st, s, k);
      CommitSettles(st, w, s, k);
    }
    forall s | s in st'.t && st'.t[s].leasedBy.Some?
      ensures s in st'.current && Backs(st', s, st'.current[s])
    {
      assert LockSound(st, s);
      CommitBacks(st, w, s);
    }
  }

  lemma OtherBacks(st: State, op: Op, s: string)
    requires Enabled(st, Other(op))
    requires s in st.t && st.t[s].leasedBy.Some? ==> s in st.current && Backs(st, s, st.current[s])
    ensures var st' := Next(st, Other(op));
            s in st'.t && st'.t[s].leasedBy.Some? ==> s in st'.current && Backs(st', s, st'.current[s])
  {
  }

  lemma OtherSettles(st: State, op: Op, s: string, k: nat)
    requires Settled(st, s, k) && Paired(st.t) && Enabled(st, Other(op))
    ensures Settled(Next(st, Other(op)), s, k)
  {
  }

  lemma OtherLocks(st: State, op: Op, s: string)
    requires LockSound(st, s) && Enabled(st, Other(op))
    ensures LockSound(Next(st, Other(op)), s)
  {
  }

  lemma OtherKeeps(st: State, op: Op)
    requires Inv(st) && Enabled(st, Other(op))
    ensures Inv(Next(st, Other(op)))
  {
    var st' := Next(st, Other(op));
    forall w ensures ClockSound(st', w) {
      assert ClockSound(st, w);
    }
    forall s ensures LockSound(st', s) {
      assert LockSound(st, s);
      OtherLocks(st, op, s);
    }
    forall s, k ensures Settled(st', s, k) {
      assert Settled(st, s, k);
      OtherSettles(st, op, s, k);
    }
    forall s | s in st'.t && st'.t[s].leasedBy.Some?
      ensures s in st'.current && Backs(st', s, st'.current[s])
    {
      assert s in st.t && st.t[s].leasedBy.Some? ==> s in st.current && Backs(st, s, st.current[s]);
      OtherBacks(st, op, s);
    }
    OtherPaired(st, op);
    forall s, k | (s, k) in st'.ledger ensures k < st'.serial {
      assert (s, k) in st.ledger;
    }
  }

  lemma OtherPaired(st: State, op: Op)
    requires Paired(st.t)
    ensures Paired(Next(st, Other(op)).t)
  {
  }

  lemma PlainKeeps(st: State, a: Action)
    requires Inv(st) && Enabled(st, a) && !a.Commit? && !a.Other?
    ensures Inv(Next(st, a))
  {
    var st' := Next(st, a);
    forall s ensures LockSound(st', s) {
      assert LockSound(st, s);
    }
    forall s, k ensures Settled(st', s, k) {
      assert Settled(st, s, k);
    }
    forall s | s in st'.t && st'.t[s].leasedBy.Some?
      ensures s in st'.current && Backs(st', s, st'.current[s])
    {
      assert Backs(st, s, st.current[s]);
    }
    forall w ensures ClockSound(st', w) {
      assert ClockSound(st, w);
    }
  }

  lemma RunSnoc(st: State, actions: seq<Action>, n: nat)
    requires n < |actions|
    ensures Run(st, actions[..n + 1]) == Next(Run(st, actions[..n]), actions[n])
  {
    assert actions[..n + 1][..n] == actions[..n];
  }

  lemma {:induction false} KeptUpTo(st: State, actions: seq<Action>, n: nat)
    requires Initial(st) && EnabledRun(st, actions) && n <= |actions|
    ensures Inv(Run(st, actions[..n]))
  {
    if n > 0 {
      KeptUpTo(st, actions, n - 1);
      RunSnoc(st, actions, n - 1);
      assert EnabledAt(st, actions, n - 1);
      var before := Run(st, actions[..n - 1]);
      match actions[n - 1]
      case Commit(w) => CommitKeeps(before, w);
      case Other(op) => OtherKeeps(before, op);
      case _ => PlainKeeps(before, actions[n - 1]);
    }
  }

  lemma RunKeeps(st: State, actions: seq<Action>)
    requires Initial(st) && EnabledRun(st, actions)
    ensures Inv(Run(st, actions))
  {
    KeptUpTo(st, actions, |actions|);
    assert actions[..|actions|] == actions;
  }

  // ---------------------------------------------------------------- theorems

  predicate Live(st: State, s: string, k: nat) {
    (s, k) in st.ledger && !st.ledger[(s, k)].released && st.clock < st.ledger[(s, k)].until
  }

  // In no reachable state are there two unexpired, unreleased leases on one
  // stream, and the one there may be is the one the row carries, so its holder
  // can still finalize.
  lemma LeaseExclusive(st: State, actions: seq<Action>, s: string, k: nat, l: nat)
    requires Initial(st) && EnabledRun(st, actions)
    requires Live(Run(st, actions), s, k)
    ensures Live(Run(st, actions), s, l) ==> k == l
    ensures var end := Run(st, actions);
            Holds(end.t, s, end.ledger[(s, k)].holder)
  {
    RunKeeps(st, actions);
    var end := Run(st, actions);
    assert Settled(end, s, k) && Settled(end, s, l);
  }
}
