/** Concurrent commits on Postgres: an unlocked head probe, then an insert that
    takes an advisory lock before it draws ids and gives it up when the rows
    become visible. Writers' steps interleave freely. */
module PostgresCommit {
  import opened Seqs
  import opened Values
  import opened EventLog

  type Worker = nat

  datatype Request = Request(stream: string, msgs: seq<Message>, expected: Option<int>)

  datatype Writer =
    | Idle
    | Probed(req: Request, base: int)
    | Holding(req: Request, base: int)
    | Inserted(req: Request, base: int, first: int, now: int)

  datatype Outcome = Succeeded(req: Request) | Failed(req: Request)

  // `rows` is what is visible, in the order it became visible; `sequence` is
  // the last id drawn.
  datatype State = State(
    rows: seq<Event>,
    sequence: int,
    lock: Option<Worker>,
    writers: map<Worker, Writer>,
    outcomes: seq<Outcome>)

  datatype Action =
    | Probe(w: Worker, req: Request)
    | Acquire(w: Worker)
    | Insert(w: Worker, now: int, drawn: nat)
    | Publish(w: Worker)
    | Abort(w: Worker)
    | TruncateFull(stream: string, snapshot: Option<Value>, now: int)
    | TruncateWindow(stream: string, before: int, maxId: Option<int>)

  function WriterOf(st: State, w: Worker): Writer {
    if w in st.writers then st.writers[w] else Idle
  }

  // The rows a writer has inserted and not yet published.
  function Pending(wr: Writer): seq<Event> {
    if wr.Inserted? then NewRows(Table([], wr.first - 1), wr.req.stream, wr.req.msgs, wr.base, wr.now) else []
  }

  // The (stream, version) unique index.
  predicate Conflict(rows: seq<Event>, req: Request, base: int) {
    exists i :: 0 <= i < |rows| && rows[i].stream == req.stream && base < rows[i].version <= base + |req.msgs|
  }

  predicate Enabled(st: State, a: Action) {
    match a
    case Probe(w, req) => WriterOf(st, w).Idle? && req.msgs != []
    case Acquire(w) => WriterOf(st, w).Probed? && st.lock.None?
    case Insert(w, _, drawn) =>
      var wr := WriterOf(st, w);
      wr.Holding? && (if Conflict(st.rows, wr.req, wr.base) then drawn <= |wr.req.msgs| else drawn == |wr.req.msgs|)
    case Publish(w) => WriterOf(st, w).Inserted?
    case Abort(w) => !WriterOf(st, w).Idle?
    // a truncate holds the lock from its first statement to its commit
    case TruncateFull(_, _, _) => st.lock.None?
    case TruncateWindow(_, _, _) => st.lock.None?
  }

  function Fail(st: State, w: Worker, req: Request): State {
    st.(writers := st.writers[w := Idle],
        lock := if st.lock == Some(w) then None else st.lock,
        outcomes := st.outcomes + [Failed(req)])
  }

  function Next(st: State, a: Action): State {
    match a
    case Probe(w, req) =>
      var head := MaxVersion(st.rows, req.stream);
      if req.expected.Some? && req.expected.value != head then Fail(st, w, req)
      else st.(writers := st.writers[w := Probed(req, head)])
    case Acquire(w) =>
      var wr := WriterOf(st, w);
      if wr.Probed? then st.(lock := Some(w), writers := st.writers[w := Holding(wr.req, wr.base)]) else st
    case Insert(w, now, drawn) =>
      var wr := WriterOf(st, w);
      if !wr.Holding? then st
      else if Conflict(st.rows, wr.req, wr.base) then Fail(st, w, wr.req).(sequence := st.sequence + drawn)
      else st.(writers := st.writers[w := Inserted(wr.req, wr.base, st.sequence + 1, now)],
               sequence := st.sequence + drawn)
    case Publish(w) =>
      var wr := WriterOf(st, w);
      if wr.Inserted? then
        st.(rows := st.rows + Pending(wr), lock := None, writers := st.writers[w := Idle],
            outcomes := st.outcomes + [Succeeded(wr.req)])
      else st
    case Abort(w) =>
      var wr := WriterOf(st, w);
      if wr.Idle? then st else Fail(st, w, wr.req)
    case TruncateFull(stream, snapshot, now) =>
      var t := Full(Table(st.rows, st.sequence), stream, snapshot, now);
      st.(rows := t.rows, sequence := t.sequence)
    case TruncateWindow(stream, before, maxId) =>
      st.(rows := Windowed(Table(st.rows, st.sequence), stream, before, maxId).rows)
  }

  function Run(st: State, actions: seq<Action>): State {
    if actions == [] then st else Next(Run(st, actions[..|actions| - 1]), actions[|actions| - 1])
  }

  ghost predicate EnabledAt(st: State, actions: seq<Action>, i: int) {
    0 <= i < |actions| ==> Enabled(Run(st, actions[..i]), actions[i])
  }

  ghost predicate EnabledRun(st: State, actions: seq<Action>) {
    forall i :: EnabledAt(st, actions, i)
  }

  const INITIAL := State([], 0, None, map[], [])

  lemma EnabledPrefix(st: State, actions: seq<Action>, n: nat)
    requires EnabledRun(st, actions) && n <= |actions|
    ensures EnabledRun(st, actions[..n])
  {
    forall i ensures EnabledAt(st, actions[..n], i) {
      assert EnabledAt(st, actions, i);
      if 0 <= i < n {
        assert actions[..n][..i] == actions[..i];
      }
    }
  }

  lemma RunSnoc(st: State, actions: seq<Action>, n: nat)
    requires n < |actions|
    ensures Run(st, actions[..n + 1]) == Next(Run(st, actions[..n]), actions[n])
  {
    assert actions[..n + 1][..n] == actions[..n];
  }

  // ---------------------------------------------------------------- visibility

  // Whoever is past the lock step holds the lock.
  predicate LockSound(st: State, w: Worker) {
    WriterOf(st, w).Holding? || WriterOf(st, w).Inserted? ==> st.lock == Some(w)
  }

  // Rows drawn but not visible sit above every visible id.
  predicate PendingSound(st: State, w: Worker) {
    var wr := WriterOf(st, w);
    wr.Inserted? ==>
      && wr.first + |wr.req.msgs| - 1 <= st.sequence
      && 0 < wr.first
      && forall i :: 0 <= i < |st.rows| ==> st.rows[i].id < wr.first
  }

  ghost predicate Visible(rows: seq<Event>, sequence: int) {
    && sequence >= 0
    && Rising(rows)
    && forall i :: 0 <= i < |rows| ==> 0 < rows[i].id <= sequence
  }

  ghost predicate Inv(st: State) {
    && Visible(st.rows, st.sequence)
    && (forall w :: LockSound(st, w))
    && (forall w :: PendingSound(st, w))
  }

  lemma PublishVisible(rows: seq<Event>, sequence: int, wr: Writer)
    requires Visible(rows, sequence) && wr.Inserted?
    requires wr.first + |wr.req.msgs| - 1 <= sequence && 0 < wr.first
    requires forall i :: 0 <= i < |rows| ==> rows[i].id < wr.first
    ensures Visible(rows + Pending(wr), sequence)
  {
  }

  lemma FilterVisible(rows: seq<Event>, sequence: int, p: Event -> bool)
    requires Visible(rows, sequence)
    ensures Visible(Filter(p, rows), sequence)
    ensures forall e :: e in Filter(p, rows) ==> e in rows
  {
    RisingFilter(p, rows);
    FilterMember(p, rows);
  }

  lemma TruncateVisible(st: State, a: Action)
    requires Visible(st.rows, st.sequence) && (a.TruncateFull? || a.TruncateWindow?)
    ensures Visible(Next(st, a).rows, Next(st, a).sequence)
  {
    var t := Table(st.rows, st.sequence);
    if a.TruncateFull? {
      var kept := Filter((e: Event) => e.stream != a.stream, st.rows);
      FilterVisible(st.rows, st.sequence, (e: Event) => e.stream != a.stream);
      assert Next(st, a).rows == kept + [Seed(t, a.stream, a.snapshot, a.now)];
    } else {
      var b := Boundary(st.rows, a.stream, a.before, a.maxId);
      if b.Some? {
        FilterVisible(st.rows, st.sequence, (e: Event) => !(e.stream == a.stream && e.id < b.value.id));
      }
    }
  }

  lemma NextKeeps(st: State, a: Action)
    requires Inv(st) && Enabled(st, a)
    ensures Inv(Next(st, a))
  {
    var st' := Next(st, a);
    forall w ensures LockSound(st', w) && PendingSound(st', w) {
      assert LockSound(st, w) && PendingSound(st, w);
      if a.Insert? || a.Publish? || a.Abort? || a.Acquire? {
        assert LockSound(st, a.w) && PendingSound(st, a.w);
      }
    }
    if a.Publish? {
      assert PendingSound(st, a.w);
      PublishVisible(st.rows, st.sequence, WriterOf(st, a.w));
    } else if a.TruncateFull? || a.TruncateWindow? {
      TruncateVisible(st, a);
    }
  }

  lemma {:induction false} RunKeeps(actions: seq<Action>)
    requires EnabledRun(INITIAL, actions)
    ensures Inv(Run(INITIAL, actions))
  {
    if actions != [] {
      var n := |actions| - 1;
      EnabledPrefix(INITIAL, actions, n);
      RunKeeps(actions[..n]);
      assert EnabledAt(INITIAL, actions, n);
      NextKeeps(Run(INITIAL, actions[..n]), actions[n]);
    }
  }

  // Nothing at or below an id seen earlier turns up later.
  predicate NothingLate(rows: seq<Event>, st: State, mark: int) {
    && mark <= st.sequence
    && (forall e :: e in st.rows && e.id <= mark ==> e in rows)
  }

  predicate PendingAbove(st: State, w: Worker, mark: int) {
    WriterOf(st, w).Inserted? ==> mark < WriterOf(st, w).first
  }

  ghost predicate Quiet(rows: seq<Event>, st: State, mark: int) {
    NothingLate(rows, st, mark) && forall w :: PendingAbove(st, w, mark)
  }

  lemma StaysQuiet(rows: seq<Event>, st: State, a: Action, mark: int)
    requires Inv(st) && Enabled(st, a)
    requires Quiet(rows, st, mark)
    ensures Quiet(rows, Next(st, a), mark)
  {
    var st' := Next(st, a);
    forall w ensures PendingAbove(st', w, mark) {
      assert PendingAbove(st, w, mark);
    }
    if a.Publish? {
      assert PendingAbove(st, a.w, mark);
      assert forall e :: e in st'.rows ==> e in st.rows || e in Pending(WriterOf(st, a.w));
    } else if a.TruncateFull? {
      assert forall e :: e in st'.rows ==>
        e in Filter((e: Event) => e.stream != a.stream, st.rows) || e.id == st.sequence + 1;
      FilterVisible(st.rows, st.sequence, (e: Event) => e.stream != a.stream);
    } else if a.TruncateWindow? {
      var b := Boundary(st.rows, a.stream, a.before, a.maxId);
      if b.Some? {
        FilterVisible(st.rows, st.sequence, (e: Event) => !(e.stream == a.stream && e.id < b.value.id));
      }
    }
  }

  lemma QuietNow(st: State, v: Event)
    requires Inv(st) && v in st.rows
    ensures Quiet(st.rows, st, v.id)
  {
    forall w ensures PendingAbove(st, w, v.id) {
      assert PendingSound(st, w);
    }
  }

  lemma {:induction false} QuietFrom(actions: seq<Action>, i: nat, j: nat, v: Event)
    requires EnabledRun(INITIAL, actions) && i <= j <= |actions|
    requires v in Run(INITIAL, actions[..i]).rows
    ensures Quiet(Run(INITIAL, actions[..i]).rows, Run(INITIAL, actions[..j]), v.id)
  {
    var st := Run(INITIAL, actions[..i]);
    if i == j {
      EnabledPrefix(INITIAL, actions, i);
      RunKeeps(actions[..i]);
      QuietNow(st, v);
    } else {
      QuietFrom(actions, i, j - 1, v);
      QuietNext(actions, j - 1, st.rows, v.id);
    }
  }

  lemma QuietNext(actions: seq<Action>, n: nat, rows: seq<Event>, mark: int)
    requires EnabledRun(INITIAL, actions) && n < |actions|
    requires Quiet(rows, Run(INITIAL, actions[..n]), mark)
    ensures Quiet(rows, Run(INITIAL, actions[..n + 1]), mark)
  {
    EnabledPrefix(INITIAL, actions, n);
    RunKeeps(actions[..n]);
    RunSnoc(INITIAL, actions, n);
    assert EnabledAt(INITIAL, actions, n);
    StaysQuiet(rows, Run(INITIAL, actions[..n]), actions[n], mark);
  }

  // Id order is visibility order: an event visible at any later time, with an
  // id at or below one visible now, is visible now.
  lemma NoLateArrivals(actions: seq<Action>, i: nat, j: nat, v: Event, e: Event)
    requires EnabledRun(INITIAL, actions) && i <= j <= |actions|
    requires v in Run(INITIAL, actions[..i]).rows && e in Run(INITIAL, actions[..j]).rows
    requires e.id <= v.id
    ensures e in Run(INITIAL, actions[..i]).rows
  {
    QuietFrom(actions, i, j, v);
  }

  // A reader that acks to the last id it read leaves nothing unread behind:
  // whatever a later fetch finds at or below that id, it has read.
  lemma ReaderSkipsNothing(actions: seq<Action>, i: nat, j: nat, window: Event -> bool, after: int, limit: nat, e: Event)
    requires EnabledRun(INITIAL, actions) && i <= j <= |actions|
    requires var read := Take(Fetch(Run(INITIAL, actions[..i]).rows, window, after), limit);
             read != [] && e.id <= read[|read| - 1].id
    requires e in Fetch(Run(INITIAL, actions[..j]).rows, window, after)
    ensures e in Take(Fetch(Run(INITIAL, actions[..i]).rows, window, after), limit)
  {
    hide Run, EnabledRun;
    var now, later := Run(INITIAL, actions[..i]).rows, Run(INITIAL, actions[..j]).rows;
    var all := Fetch(now, window, after);
    var n := |Take(all, limit)|;
    FetchMember(now, window, after);
    FetchMember(later, window, after);
    assert all[n - 1] in all && Take(all, limit)[n - 1] == all[n - 1];
    NoLateArrivals(actions, i, j, all[n - 1], e);
    EnabledPrefix(INITIAL, actions, i);
    RunKeeps(actions[..i]);
    FetchRising(now, window, after);
    InPrefix(all, n, e);
  }

  lemma FetchRising(rows: seq<Event>, window: Event -> bool, after: int)
    requires Rising(rows)
    ensures Rising(Fetch(rows, window, after))
  {
    RisingFilter((x: Event) => window(x) && x.name != SNAP && x.id > after, rows);
  }

  lemma FetchMember(rows: seq<Event>, window: Event -> bool, after: int)
    ensures forall x :: x in Fetch(rows, window, after) <==> x in rows && window(x) && x.name != SNAP && x.id > after
  {
    FilterMember((x: Event) => window(x) && x.name != SNAP && x.id > after, rows);
  }

  lemma InPrefix(all: seq<Event>, n: nat, e: Event)
    requires Rising(all) && 0 < n <= |all| && e in all && e.id <= all[n - 1].id
    ensures e in all[..n]
  {
    var k :| 0 <= k < |all| && all[k] == e;
    assert k < n;
  }
}
