/** Versions on Postgres: what the (stream, version) unique index does and does
    not catch between an unlocked head probe and the insert, truncates included. */
module PostgresVersions {
  import opened Seqs
  import opened Values
  import opened EventLog
  import opened PostgresCommit

  predicate Truncates(a: Action) {
    a.TruncateFull? || a.TruncateWindow?
  }

  ghost predicate AllContiguous(rows: seq<Event>) {
    forall s :: Contiguous(Of(rows, s))
  }

  // The writer's rows go on top of the head it probed.
  predicate OnHead(st: State, w: Worker) {
    var wr := WriterOf(st, w);
    wr.Inserted? && wr.base == MaxVersion(st.rows, wr.req.stream)
  }

  // ---------------------------------------------------------------- all runs

  // A base is -1, or was the head of a stream that still has rows.
  predicate Known(st: State, w: Worker) {
    var wr := WriterOf(st, w);
    !wr.Idle? ==>
      && wr.req.msgs != [] && wr.base >= -1
      && (wr.req.expected.Some? ==> wr.req.expected.value == wr.base)
      && (wr.base >= 0 ==> Of(st.rows, wr.req.stream) != [])
  }

  ghost predicate Proper(st: State) {
    Inv(st) && forall w :: Known(st, w)
  }

  lemma {:induction false} HeadHasRow(rows: seq<Event>, s: string)
    ensures MaxVersion(rows, s) >= -1
    ensures MaxVersion(rows, s) >= 0 ==> Of(rows, s) != []
  {
    if rows != [] {
      HeadHasRow(rows[..|rows| - 1], s);
    }
  }

  lemma PublishOf(rows: seq<Event>, wr: Writer, s: string)
    requires wr.Inserted?
    ensures Of(rows + Pending(wr), s) == if s == wr.req.stream then Of(rows, s) + Pending(wr) else Of(rows, s)
  {
    OfAppend(rows, Pending(wr), wr.req.stream, s);
  }

  // A truncate leaves other streams alone, and never empties its own.
  lemma TruncateOf(st: State, a: Action, s: string)
    requires Truncates(a) && Rising(st.rows)
    ensures s != a.stream ==> Of(Next(st, a).rows, s) == Of(st.rows, s)
    ensures Of(st.rows, s) != [] ==> Of(Next(st, a).rows, s) != []
    ensures Contiguous(Of(st.rows, s)) ==> Contiguous(Of(Next(st, a).rows, s))
  {
    var t := Table(st.rows, st.sequence);
    if a.TruncateFull? {
      FullOf(t, a.stream, a.snapshot, a.now, s);
    } else {
      var d := WindowedOf(t, a.stream, a.before, a.maxId, s);
    }
  }

  lemma StillThere(st: State, a: Action, s: string)
    requires Rising(st.rows) && Of(st.rows, s) != []
    ensures Of(Next(st, a).rows, s) != []
  {
    if Truncates(a) {
      TruncateOf(st, a, s);
    } else if a.Publish? && WriterOf(st, a.w).Inserted? {
      PublishOf(st.rows, WriterOf(st, a.w), s);
    }
  }

  lemma ProperStep(st: State, a: Action)
    requires Proper(st) && Enabled(st, a)
    ensures Proper(Next(st, a))
  {
    var st' := Next(st, a);
    NextKeeps(st, a);
    forall w ensures Known(st', w) {
      KnownStep(st, a, w);
    }
  }

  lemma KnownStep(st: State, a: Action, w: Worker)
    requires Rising(st.rows) && Known(st, w) && Enabled(st, a)
    ensures Known(Next(st, a), w)
  {
    var wr' := WriterOf(Next(st, a), w);
    if a.Probe? && a.w == w {
      HeadHasRow(st.rows, a.req.stream);
    } else if !wr'.Idle? && Of(st.rows, wr'.req.stream) != [] {
      StillThere(st, a, wr'.req.stream);
    }
  }

  lemma {:induction false} RunProper(actions: seq<Action>)
    requires EnabledRun(INITIAL, actions)
    ensures Proper(Run(INITIAL, actions))
  {
    if actions != [] {
      var n := |actions| - 1;
      EnabledPrefix(INITIAL, actions, n);
      RunProper(actions[..n]);
      assert EnabledAt(INITIAL, actions, n);
      ProperStep(Run(INITIAL, actions[..n]), actions[n]);
    }
  }

  function Last(of: seq<Event>): int {
    if of == [] then -1 else of[|of| - 1].version
  }

  lemma PublishContiguous(rows: seq<Event>, wr: Writer)
    requires wr.Inserted? && wr.req.msgs != [] && wr.base >= -1
    requires Contiguous(Of(rows, wr.req.stream))
    requires wr.base >= 0 ==> Of(rows, wr.req.stream) != []
    ensures Contiguous(Of(rows + Pending(wr), wr.req.stream)) <==> wr.base == MaxVersion(rows, wr.req.stream)
  {
    PublishOf(rows, wr, wr.req.stream);
    HeadIsLast(rows, wr.req.stream);
    JoinPending(Of(rows, wr.req.stream), wr);
  }

  lemma HeadIsLast(rows: seq<Event>, s: string)
    requires Contiguous(Of(rows, s))
    ensures MaxVersion(rows, s) == Last(Of(rows, s))
  {
    MaxVersionIsLast(rows, s);
  }

  lemma JoinPending(of: seq<Event>, wr: Writer)
    requires wr.Inserted? && wr.req.msgs != [] && wr.base >= -1
    requires Contiguous(of) && (wr.base >= 0 ==> of != [])
    ensures Contiguous(of + Pending(wr)) <==> wr.base == Last(of)
  {
    if of == [] {
      assert of + Pending(wr) == Pending(wr);
    } else {
      JoinContiguous(of, Pending(wr));
    }
  }

  lemma JoinContiguous(of: seq<Event>, more: seq<Event>)
    requires Contiguous(of) && Contiguous(more) && of != [] && more != []
    ensures Contiguous(of + more) <==> more[0].version == of[|of| - 1].version + 1
  {
    var all := of + more;
    assert all[|of|] == more[0] && all[0] == of[0];
    if more[0].version == of[|of| - 1].version + 1 {
      forall i | 0 <= i < |all| ensures all[i].version == all[0].version + i {
        if |of| <= i {
          assert all[i] == more[i - |of|];
        }
      }
    }
  }

  // One step of any kind, from contiguous streams: only a publish on a base
  // that is no longer the head breaks one.
  lemma StepContiguous(st: State, a: Action)
    requires Proper(st) && Enabled(st, a) && AllContiguous(st.rows)
    ensures AllContiguous(Next(st, a).rows) <==> (a.Publish? ==> OnHead(st, a.w))
  {
    if a.Publish? {
      var wr := WriterOf(st, a.w);
      assert Known(st, a.w) && Contiguous(Of(st.rows, wr.req.stream));
      PublishContiguous(st.rows, wr);
      if wr.base == MaxVersion(st.rows, wr.req.stream) {
        forall s ensures Contiguous(Of(Next(st, a).rows, s)) {
          assert Contiguous(Of(st.rows, s));
          PublishOf(st.rows, wr, s);
        }
      }
    } else if Truncates(a) {
      forall s ensures Contiguous(Of(Next(st, a).rows, s)) {
        assert Contiguous(Of(st.rows, s));
        TruncateOf(st, a, s);
      }
    }
  }

  ghost predicate ContiguousAt(actions: seq<Action>, n: int) {
    0 <= n <= |actions| ==> AllContiguous(Run(INITIAL, actions[..n]).rows)
  }

  ghost predicate OnHeadAt(actions: seq<Action>, n: int) {
    0 <= n < |actions| && actions[n].Publish? ==> OnHead(Run(INITIAL, actions[..n]), actions[n].w)
  }

  // Over any run, truncates included, every stream is contiguous throughout
  // exactly when every publish goes on top of the head.
  lemma ContiguousExactly(actions: seq<Action>)
    requires EnabledRun(INITIAL, actions)
    ensures (forall n :: ContiguousAt(actions, n)) <==> (forall n :: OnHeadAt(actions, n))
  {
    if forall n :: OnHeadAt(actions, n) {
      forall n ensures ContiguousAt(actions, n) {
        if 0 <= n <= |actions| {
          ContiguousUpTo(actions, n);
        }
      }
    }
    if forall n :: ContiguousAt(actions, n) {
      forall n ensures OnHeadAt(actions, n) {
        if 0 <= n < |actions| {
          StepAt(actions, n);
          assert ContiguousAt(actions, n) && ContiguousAt(actions, n + 1);
        }
      }
    }
  }

  lemma StepAt(actions: seq<Action>, n: nat)
    requires EnabledRun(INITIAL, actions) && n < |actions|
    requires ContiguousAt(actions, n)
    ensures ContiguousAt(actions, n + 1) <==> OnHeadAt(actions, n)
  {
    EnabledPrefix(INITIAL, actions, n);
    RunProper(actions[..n]);
    RunSnoc(INITIAL, actions, n);
    assert EnabledAt(INITIAL, actions, n);
    StepContiguous(Run(INITIAL, actions[..n]), actions[n]);
  }

  lemma {:induction false} ContiguousUpTo(actions: seq<Action>, n: nat)
    requires EnabledRun(INITIAL, actions) && n <= |actions|
    requires forall k :: OnHeadAt(actions, k)
    ensures ContiguousAt(actions, n)
  {
    if n == 0 {
      forall s ensures Contiguous(Of(INITIAL.rows, s)) {}
      assert actions[..0] == [];
    } else {
      ContiguousUpTo(actions, n - 1);
      assert OnHeadAt(actions, n - 1);
      StepAt(actions, n - 1);
    }
  }

  // What a step may do to the visible rows: nothing; a truncate; or, when it
  // publishes, exactly what the atomic commit of the same request would do.
  ghost predicate Atomic(st: State, a: Action) {
    var st' := Next(st, a);
    match a
    case Publish(w) =>
      var wr := WriterOf(st, w);
      && wr.Inserted?
      && var t := Table(st.rows, wr.first - 1);
         && !Refused(t, wr.req.stream, wr.req.expected)
         && st'.rows == Commit(t, wr.req.stream, wr.req.msgs, wr.req.expected, wr.now).rows
         && st'.outcomes == st.outcomes + [Succeeded(wr.req)]
    case TruncateFull(stream, snapshot, now) =>
      st'.rows == Full(Table(st.rows, st.sequence), stream, snapshot, now).rows && st'.outcomes == st.outcomes
    case TruncateWindow(stream, before, maxId) =>
      st'.rows == Windowed(Table(st.rows, st.sequence), stream, before, maxId).rows && st'.outcomes == st.outcomes
    case _ =>
      && st'.rows == st.rows
      && (st'.outcomes == st.outcomes || exists r :: st'.outcomes == st.outcomes + [Failed(r)])
  }

  lemma AtomicExactly(st: State, a: Action)
    requires Proper(st) && Enabled(st, a)
    ensures Atomic(st, a) <==> (a.Publish? ==> OnHead(st, a.w))
  {
    if a.Publish? {
      var wr := WriterOf(st, a.w);
      assert Known(st, a.w);
      var t, head := Table(st.rows, wr.first - 1), MaxVersion(st.rows, wr.req.stream);
      var rows := NewRows(t, wr.req.stream, wr.req.msgs, head, wr.now);
      assert Next(st, a).rows == st.rows + Pending(wr);
      if wr.base == head {
        assert Pending(wr) == rows;
      } else {
        assert rows[0].version != Pending(wr)[0].version;
        assert (st.rows + rows)[|st.rows|] == rows[0] && (st.rows + Pending(wr))[|st.rows|] == Pending(wr)[0];
      }
    }
  }

  // What a publish makes visible: one row per message, with the message's own
  // name and data, the ids drawn for it and the versions after its base.
  lemma PublishStores(st: State, w: Worker)
    requires Enabled(st, Publish(w))
    ensures var wr, rows := WriterOf(st, w), Next(st, Publish(w)).rows;
            && |rows| == |st.rows| + |wr.req.msgs| && rows[..|st.rows|] == st.rows
            && forall k :: 0 <= k < |wr.req.msgs| ==>
                 var e := rows[|st.rows| + k];
                 && e.id == wr.first + k && e.created == wr.now
                 && e.stream == wr.req.stream && e.version == wr.base + 1 + k
                 && e.name == wr.req.msgs[k].name && e.data == wr.req.msgs[k].data
  {
    var wr := WriterOf(st, w);
    assert Next(st, Publish(w)).rows == st.rows + Pending(wr);
  }

  // ---------------------------------------------------------------- the unique index

  // The index refuses an insert exactly when the stream's versions, first to
  // head, meet the ones it would take. A base above the head goes unseen, and
  // so does one too far below what a windowed truncate has left.
  lemma ConflictExactly(rows: seq<Event>, req: Request, base: int)
    requires Contiguous(Of(rows, req.stream)) && req.msgs != []
    ensures var of := Of(rows, req.stream);
            Conflict(rows, req, base) <==>
            of != [] && base < MaxVersion(rows, req.stream) && of[0].version <= base + |req.msgs|
  {
    var of, head := Of(rows, req.stream), MaxVersion(rows, req.stream);
    MaxVersionIsLast(rows, req.stream);
    FilterMember((e: Event) => e.stream == req.stream, rows);
    if of != [] && base < head && of[0].version <= base + |req.msgs| {
      var v := if base + 1 < of[0].version then of[0].version else base + 1;
      var taken := of[v - of[0].version];
      assert taken.version == v && taken in of && taken in rows;
      var i :| 0 <= i < |rows| && rows[i] == taken;
    }
    if i :| 0 <= i < |rows| && rows[i].stream == req.stream && base < rows[i].version <= base + |req.msgs| {
      assert rows[i] in of;
    }
  }

  // ---------------------------------------------------------------- careful truncates

  // The index will refuse the writer's rows, or they go on top of the head.
  predicate Safe(st: State, w: Worker) {
    var wr := WriterOf(st, w);
    !wr.Idle? ==>
      || wr.base == MaxVersion(st.rows, wr.req.stream)
      || (!wr.Inserted? && Conflict(st.rows, wr.req, wr.base))
  }

  predicate InFlight(st: State, w: Worker, s: string) {
    !WriterOf(st, w).Idle? && WriterOf(st, w).req.stream == s
  }

  // Where a truncate lets a commit in flight be: a full one, at most at
  // version 0; a windowed one, at the head, or reaching up to the boundary.
  // With no commit to the stream in flight any truncate will do.
  predicate Spares(st: State, a: Action, w: Worker) {
    var wr := WriterOf(st, w);
    match a
    case TruncateFull(s, _, _) => InFlight(st, w, s) ==> wr.base <= 0
    case TruncateWindow(s, before, maxId) =>
      var boundary := Boundary(st.rows, s, before, maxId);
      InFlight(st, w, s) && boundary.Some? ==>
        wr.base == MaxVersion(st.rows, s) || boundary.value.version <= wr.base + |wr.req.msgs|
    case _ => true
  }

  ghost predicate Careful(st: State, a: Action) {
    forall w :: Spares(st, a, w)
  }

  ghost predicate CarefulAt(actions: seq<Action>, n: int) {
    0 <= n < |actions| ==> Careful(Run(INITIAL, actions[..n]), actions[n])
  }

  ghost predicate CarefulRun(actions: seq<Action>) {
    forall n :: CarefulAt(actions, n)
  }

  ghost predicate Sound(st: State) {
    && Proper(st)
    && AllContiguous(st.rows)
    && (forall w :: Safe(st, w))
  }

  lemma SafeFull(st: State, a: Action, w: Worker)
    requires a.TruncateFull? && Enabled(st, a) && LockSound(st, w) && Known(st, w)
    requires InFlight(st, w, a.stream)
    ensures Safe(Next(st, a), w) <==> Spares(st, a, w)
  {
    var t := Table(st.rows, st.sequence);
    FullOf(t, a.stream, a.snapshot, a.now, a.stream);
    Restarted(Next(st, a).rows, WriterOf(st, w).req, WriterOf(st, w).base);
  }

  lemma Restarted(rows: seq<Event>, req: Request, base: int)
    requires var of := Of(rows, req.stream); |of| == 1 && of[0].version == 0
    requires req.msgs != [] && base >= -1
    ensures MaxVersion(rows, req.stream) == 0
    ensures Conflict(rows, req, base) <==> base == -1
  {
    HeadIsLast(rows, req.stream);
    ConflictExactly(rows, req, base);
  }

  lemma SafeWindow(st: State, a: Action, w: Worker)
    requires a.TruncateWindow? && Enabled(st, a) && LockSound(st, w) && Known(st, w) && Safe(st, w)
    requires Rising(st.rows) && Contiguous(Of(st.rows, a.stream)) && InFlight(st, w, a.stream)
    ensures Safe(Next(st, a), w) <==> Spares(st, a, w)
  {
    var wr, t := WriterOf(st, w), Table(st.rows, st.sequence);
    TruncateOf(st, a, a.stream);
    var d := WindowedOf(t, a.stream, a.before, a.maxId, a.stream);
    HeadIsLast(st.rows, a.stream);
    HeadIsLast(Next(st, a).rows, a.stream);
    ConflictExactly(st.rows, wr.req, wr.base);
    ConflictExactly(Next(st, a).rows, wr.req, wr.base);
  }

  // Other streams than the truncated one.
  lemma SafeApart(st: State, a: Action, w: Worker)
    requires Truncates(a) && Safe(st, w) && Known(st, w) && Rising(st.rows) && !InFlight(st, w, a.stream)
    requires AllContiguous(st.rows)
    ensures Safe(Next(st, a), w)
  {
    var wr := WriterOf(st, w);
    if !wr.Idle? {
      var s := wr.req.stream;
      assert Contiguous(Of(st.rows, s));
      TruncateOf(st, a, s);
      HeadIsLast(st.rows, s);
      HeadIsLast(Next(st, a).rows, s);
      ConflictExactly(st.rows, wr.req, wr.base);
      ConflictExactly(Next(st, a).rows, wr.req, wr.base);
    }
  }

  lemma SafeTruncate(st: State, a: Action, w: Worker)
    requires Sound(st) && Enabled(st, a) && Truncates(a)
    ensures Safe(Next(st, a), w) <==> Spares(st, a, w)
  {
    assert Known(st, w) && Safe(st, w) && LockSound(st, w);
    if !InFlight(st, w, a.stream) {
      SafeApart(st, a, w);
    } else if a.TruncateFull? {
      SafeFull(st, a, w);
    } else {
      assert Contiguous(Of(st.rows, a.stream));
      SafeWindow(st, a, w);
    }
  }

  // Rows on top of the head take the next version, so writers that probed the
  // same head are now refused.
  lemma SafePublish(st: State, p: Worker, w: Worker)
    requires WriterOf(st, p).Inserted? && Known(st, p) && Safe(st, p) && LockSound(st, p)
    requires Known(st, w) && Safe(st, w) && LockSound(st, w)
    requires Contiguous(Of(st.rows, WriterOf(st, p).req.stream))
    ensures Safe(Next(st, Publish(p)), w)
  {
    var wr, mine := WriterOf(st, p), WriterOf(st, w);
    if !mine.Idle? && p != w {
      var rows := st.rows + Pending(wr);
      assert Next(st, Publish(p)).rows == rows;
      if Conflict(st.rows, mine.req, mine.base) {
        var i :| 0 <= i < |st.rows| && st.rows[i].stream == mine.req.stream
                 && mine.base < st.rows[i].version <= mine.base + |mine.req.msgs|;
        assert rows[i] == st.rows[i];
      } else if mine.req.stream == wr.req.stream {
        assert rows[|st.rows|] == Pending(wr)[0] && Pending(wr)[0].version == mine.base + 1;
      } else {
        OtherHead(st.rows, wr, mine.req.stream);
      }
    }
  }

  lemma OtherHead(rows: seq<Event>, wr: Writer, s: string)
    requires wr.Inserted? && s != wr.req.stream
    ensures MaxVersion(rows + Pending(wr), s) == MaxVersion(rows, s)
  {
    HeadApart(rows, Pending(wr), s);
  }

  lemma {:induction false} HeadApart(rows: seq<Event>, more: seq<Event>, s: string)
    requires forall e :: e in more ==> e.stream != s
    ensures MaxVersion(rows + more, s) == MaxVersion(rows, s)
  {
    if more == [] {
      assert rows + more == rows;
    } else {
      var n := |more| - 1;
      HeadApart(rows, more[..n], s);
      assert (rows + more)[..|rows| + n] == rows + more[..n];
    }
  }

  lemma SafeOther(st: State, a: Action, w: Worker)
    requires Safe(st, w) && Enabled(st, a) && !a.Publish? && !Truncates(a)
    ensures Safe(Next(st, a), w)
  {
  }

  lemma SafeStep(st: State, a: Action, w: Worker)
    requires Sound(st) && Enabled(st, a) && Spares(st, a, w)
    ensures Safe(Next(st, a), w)
  {
    assert Safe(st, w) && Known(st, w) && LockSound(st, w);
    if a.Publish? {
      assert Safe(st, a.w) && Known(st, a.w) && LockSound(st, a.w);
      assert Contiguous(Of(st.rows, WriterOf(st, a.w).req.stream));
      SafePublish(st, a.w, w);
    } else if Truncates(a) {
      SafeTruncate(st, a, w);
    } else {
      SafeOther(st, a, w);
    }
  }

  lemma SoundStep(st: State, a: Action)
    requires Sound(st) && Enabled(st, a) && Careful(st, a)
    ensures Sound(Next(st, a))
  {
    ProperStep(st, a);
    if a.Publish? {
      assert Safe(st, a.w);
    }
    StepContiguous(st, a);
    forall w ensures Safe(Next(st, a), w) {
      assert Spares(st, a, w);
      SafeStep(st, a, w);
    }
  }

  lemma {:induction false} RunSound(actions: seq<Action>)
    requires EnabledRun(INITIAL, actions) && CarefulRun(actions)
    ensures Sound(Run(INITIAL, actions))
  {
    if actions == [] {
      forall s ensures Contiguous(Of(INITIAL.rows, s)) {}
    } else {
      var n := |actions| - 1;
      EnabledPrefix(INITIAL, actions, n);
      CarefulPrefix(actions, n);
      RunSound(actions[..n]);
      assert EnabledAt(INITIAL, actions, n) && CarefulAt(actions, n);
      SoundStep(Run(INITIAL, actions[..n]), actions[n]);
    }
  }

  lemma CarefulPrefix(actions: seq<Action>, n: nat)
    requires CarefulRun(actions) && n <= |actions|
    ensures CarefulRun(actions[..n])
  {
    forall i ensures CarefulAt(actions[..n], i) {
      assert CarefulAt(actions, i);
      if 0 <= i < n {
        assert actions[..n][..i] == actions[..i];
      }
    }
  }

  // Optimistic commit is linearizable in every run whose truncates are careful
  // of the commits in flight: each stream is contiguous in id order, and
  // one more step changes what is visible only by a truncate or by publishing,
  // which is then the atomic commit of the same request on the log as it
  // stands -- not refused, expected version met.
  lemma Linearizable(actions: seq<Action>, a: Action, s: string)
    requires EnabledRun(INITIAL, actions) && CarefulRun(actions)
    requires Enabled(Run(INITIAL, actions), a)
    ensures Contiguous(Of(Run(INITIAL, actions).rows, s)) && Rising(Of(Run(INITIAL, actions).rows, s))
    ensures Atomic(Run(INITIAL, actions), a)
  {
    RunSound(actions);
    var st := Run(INITIAL, actions);
    OfRising(st.rows, s);
    if a.Publish? {
      assert Safe(st, a.w);
    }
    AtomicExactly(st, a);
  }

  ghost predicate Dense(of: seq<Event>) {
    forall i :: 0 <= i < |of| ==> of[i].version == i
  }

  // Without truncates at all a stream's versions are 0..N-1.
  lemma {:induction false} RunDense(actions: seq<Action>, s: string)
    requires EnabledRun(INITIAL, actions)
    requires forall i :: 0 <= i < |actions| ==> !Truncates(actions[i])
    ensures Dense(Of(Run(INITIAL, actions).rows, s))
  {
    if actions != [] {
      var n := |actions| - 1;
      EnabledPrefix(INITIAL, actions, n);
      RunDense(actions[..n], s);
      forall i ensures CarefulAt(actions[..n], i) {}
      RunSound(actions[..n]);
      assert EnabledAt(INITIAL, actions, n);
      var st, a := Run(INITIAL, actions[..n]), actions[n];
      if a.Publish? {
        var wr := WriterOf(st, a.w);
        assert Safe(st, a.w) && Contiguous(Of(st.rows, s));
        assert wr.base == MaxVersion(st.rows, wr.req.stream);
        PublishDense(st.rows, wr, s);
      }
    }
  }

  lemma PublishDense(rows: seq<Event>, wr: Writer, s: string)
    requires wr.Inserted? && wr.base == MaxVersion(rows, wr.req.stream) && Contiguous(Of(rows, s))
    requires Dense(Of(rows, s))
    ensures Dense(Of(rows + Pending(wr), s))
  {
    PublishOf(rows, wr, s);
    MaxVersionIsLast(rows, s);
  }

  // ---------------------------------------------------------------- no less care

  lemma OneMore(actions: seq<Action>, st: State, a: Action)
    requires EnabledRun(INITIAL, actions) && Run(INITIAL, actions) == st && Enabled(st, a)
    ensures EnabledRun(INITIAL, actions + [a]) && Run(INITIAL, actions + [a]) == Next(st, a)
  {
    var all := actions + [a];
    assert all[..|actions|] == actions;
    forall i ensures EnabledAt(INITIAL, all, i) {
      assert EnabledAt(INITIAL, actions, i);
      if 0 <= i < |actions| {
        assert all[..i] == actions[..i];
      }
    }
  }

  function Rest(w: Worker, now: int, n: nat): seq<Action> {
    [Acquire(w), Insert(w, now, n), Publish(w)]
  }

  // A probed writer the index lets through goes on to succeed.
  lemma Lands(actions: seq<Action>, st: State, w: Worker, now: int)
    requires EnabledRun(INITIAL, actions) && Run(INITIAL, actions) == st
    requires st.lock.None? && WriterOf(st, w).Probed?
    requires var wr := WriterOf(st, w); !Conflict(st.rows, wr.req, wr.base)
    ensures var wr := WriterOf(st, w);
            var all := actions + Rest(w, now, |wr.req.msgs|);
            && EnabledRun(INITIAL, all)
            && Run(INITIAL, all) ==
                 st.(rows := st.rows + NewRows(Table([], st.sequence), wr.req.stream, wr.req.msgs, wr.base, now),
                     sequence := st.sequence + |wr.req.msgs|,
                     writers := st.writers[w := Idle],
                     outcomes := st.outcomes + [Succeeded(wr.req)])
  {
    var wr := WriterOf(st, w);
    var rest := Rest(w, now, |wr.req.msgs|);
    var st1 := Next(st, rest[0]);
    var st2 := Next(st1, rest[1]);
    OneMore(actions, st, rest[0]);
    OneMore(actions + [rest[0]], st1, rest[1]);
    OneMore(actions + [rest[0]] + [rest[1]], st2, rest[2]);
    assert actions + [rest[0]] + [rest[1]] + [rest[2]] == actions + rest;
  }

  // Every continuation without another truncate keeps the streams contiguous.
  ghost predicate StaysContiguous(actions: seq<Action>) {
    forall more :: ContinuesWell(actions, more)
  }

  ghost predicate ContinuesWell(actions: seq<Action>, more: seq<Action>) {
    EnabledRun(INITIAL, actions + more) && (forall i :: 0 <= i < |more| ==> !Truncates(more[i])) ==>
      AllContiguous(Run(INITIAL, actions + more).rows)
  }

  // A writer that is not safe can land off the head.
  lemma UnsafeLands(actions: seq<Action>, st: State, w: Worker)
    requires EnabledRun(INITIAL, actions) && Run(INITIAL, actions) == st
    requires Known(st, w) && LockSound(st, w) && st.lock.None? && !Safe(st, w)
    ensures !StaysContiguous(actions)
  {
    var wr := WriterOf(st, w);
    var rest := Rest(w, 0, |wr.req.msgs|);
    Lands(actions, st, w, 0);
    OffHead(st.rows, Inserted(wr.req, wr.base, st.sequence + 1, 0));
    if StaysContiguous(actions) {
      assert actions + [] == actions;
      WellAt(actions, []);
      WellAt(actions, rest);
    }
  }

  lemma WellAt(actions: seq<Action>, more: seq<Action>)
    requires StaysContiguous(actions) && EnabledRun(INITIAL, actions + more)
    requires forall i :: 0 <= i < |more| ==> !Truncates(more[i])
    ensures AllContiguous(Run(INITIAL, actions + more).rows)
  {
    assert ContinuesWell(actions, more);
  }

  lemma OffHead(rows: seq<Event>, wr: Writer)
    requires wr.Inserted? && wr.req.msgs != [] && wr.base >= -1
    requires wr.base >= 0 ==> Of(rows, wr.req.stream) != []
    requires wr.base != MaxVersion(rows, wr.req.stream)
    ensures !AllContiguous(rows) || !AllContiguous(rows + Pending(wr))
  {
    if AllContiguous(rows) && AllContiguous(rows + Pending(wr)) {
      assert Contiguous(Of(rows, wr.req.stream)) && Contiguous(Of(rows + Pending(wr), wr.req.stream));
      PublishContiguous(rows, wr);
    }
  }

  lemma CarefulMore(actions: seq<Action>, more: seq<Action>)
    requires CarefulRun(actions) && forall i :: 0 <= i < |more| ==> !Truncates(more[i])
    ensures CarefulRun(actions + more)
  {
    forall i ensures CarefulAt(actions + more, i) {
      assert CarefulAt(actions, i);
      if 0 <= i < |actions| {
        assert (actions + more)[..i] == actions[..i];
      } else if |actions| <= i < |actions + more| {
        assert (actions + more)[i] == more[i - |actions|];
      }
    }
  }

  // Careful truncates are exactly the ones that do no harm: after any careful
  // run, one more truncate keeps every continuation contiguous if and only if
  // it is careful of the commits in flight.
  lemma CarefulExactly(actions: seq<Action>, a: Action)
    requires EnabledRun(INITIAL, actions) && CarefulRun(actions)
    requires Truncates(a) && Enabled(Run(INITIAL, actions), a)
    ensures Careful(Run(INITIAL, actions), a) <==> StaysContiguous(actions + [a])
  {
    var st, all := Run(INITIAL, actions), actions + [a];
    RunSound(actions);
    OneMore(actions, st, a);
    if Careful(st, a) {
      forall i ensures CarefulAt(all, i) {
        assert CarefulAt(actions, i);
        if 0 <= i <= |actions| {
          assert all[..i] == actions[..i] && actions[..|actions|] == actions;
        }
      }
      forall more ensures ContinuesWell(all, more) {
        if EnabledRun(INITIAL, all + more) && (forall i :: 0 <= i < |more| ==> !Truncates(more[i])) {
          CarefulMore(all, more);
          RunSound(all + more);
        }
      }
    } else {
      var w :| !Spares(st, a, w);
      SafeTruncate(st, a, w);
      ProperStep(st, a);
      assert Known(Next(st, a), w) && LockSound(Next(st, a), w);
      UnsafeLands(all, Next(st, a), w);
    }
  }

  // ---------------------------------------------------------------- races

  const ONE := [Message("e", EMPTY)]

  // A commit that expects version 1 probes it; a full truncate then restarts
  // the stream at 0. The insert of version 2 conflicts with nothing, so the
  // commit succeeds on a stream that ends at 0, and version 1 is missing.
  const FULL_RACE := [
    Probe(0, Request("s", ONE + ONE, None)), Acquire(0), Insert(0, 0, 2), Publish(0),
    Probe(1, Request("s", ONE, Some(1))),
    TruncateFull("s", None, 0),
    Acquire(1), Insert(1, 0, 1), Publish(1)]

  // A commit that expects an empty stream probes it; another writes an event
  // and a snapshot, and a windowed truncate drops the event. The insert of
  // version 0 conflicts with nothing and lands after version 1.
  const WINDOW_RACE := [
    Probe(1, Request("s", ONE, Some(-1))),
    Probe(0, Request("s", ONE + [Message(SNAP, EMPTY)], None)), Acquire(0), Insert(0, 0, 2), Publish(0),
    TruncateWindow("s", 1, None),
    Acquire(1), Insert(1, 0, 1), Publish(1)]

  lemma TwoRows(a: Event, b: Event)
    requires a.stream == b.stream && 0 <= a.version < b.version
    ensures MaxVersion([a, b], a.stream) == b.version
    ensures Filter((e: Event) => e.stream != a.stream, [a, b]) == []
  {
    assert [a, b][..1] == [a] && [a][..0] == [];
    assert MaxVersion([a], a.stream) == a.version;
    FilterNone((e: Event) => e.stream != a.stream, [a, b]);
  }

  // Both runs start with one commit of two events to the empty stream.
  lemma FirstCommit(actions: seq<Action>, st: State, req: Request, now: int)
    requires EnabledRun(INITIAL, actions) && Run(INITIAL, actions) == st
    requires st.rows == [] && st.lock.None? && WriterOf(st, 0).Idle? && req.msgs != [] && req.expected.None?
    ensures var all := actions + [Probe(0, req)] + Rest(0, now, |req.msgs|);
            && EnabledRun(INITIAL, all)
            && Run(INITIAL, all) ==
                 st.(rows := NewRows(Table([], st.sequence), req.stream, req.msgs, -1, now),
                     sequence := st.sequence + |req.msgs|,
                     writers := st.writers[0 := Idle],
                     outcomes := st.outcomes + [Succeeded(req)])
  {
    var st' := Next(st, Probe(0, req));
    OneMore(actions, st, Probe(0, req));
    Lands(actions + [Probe(0, req)], st', 0, now);
    assert [] + NewRows(Table([], st.sequence), req.stream, req.msgs, -1, now)
        == NewRows(Table([], st.sequence), req.stream, req.msgs, -1, now);
    assert st'.writers[0 := Idle] == st.writers[0 := Idle];
  }

  lemma FullTruncateRace()
    ensures EnabledRun(INITIAL, FULL_RACE)
    ensures var st := Run(INITIAL, FULL_RACE);
            && Succeeded(Request("s", ONE, Some(1))) in st.outcomes
            && |st.rows| == 2 && st.rows[0].version == 0 && st.rows[1].version == 2
  {
    var r := FULL_RACE;
    FirstCommit([], INITIAL, r[0].req, 0);
    assert [] + [r[0]] + Rest(0, 0, 2) == r[..4];
    var st := Run(INITIAL, r[..4]);
    var e1, e2 := Event(1, "s", 0, "e", EMPTY, 0), Event(2, "s", 1, "e", EMPTY, 0);
    assert st.rows == [e1, e2];
    TwoRows(e1, e2);
    StaleAfterFull(r[..4], st, Request("s", ONE, Some(1)));
    assert r[..4] + [r[4]] + [r[5]] + Rest(1, 0, 1) == r;
  }

  lemma StaleAfterFull(actions: seq<Action>, st: State, req: Request)
    requires EnabledRun(INITIAL, actions) && Run(INITIAL, actions) == st
    requires st.lock.None? && WriterOf(st, 1).Idle?
    requires Filter((e: Event) => e.stream != "s", st.rows) == [] && MaxVersion(st.rows, "s") == 1
    requires req == Request("s", ONE, Some(1))
    ensures var all := actions + [Probe(1, req)] + [TruncateFull("s", None, 0)] + Rest(1, 0, 1);
            var end := Run(INITIAL, all);
            && EnabledRun(INITIAL, all)
            && Succeeded(req) in end.outcomes
            && |end.rows| == 2 && end.rows[0].version == 0 && end.rows[1].version == 2
  {
    var probe, truncate := Probe(1, req), TruncateFull("s", None, 0);
    OneMore(actions, st, probe);
    var probed := Next(st, probe);
    OneMore(actions + [probe], probed, truncate);
    Lands(actions + [probe] + [truncate], Next(probed, truncate), 1, 0);
  }

  lemma WindowedTruncateRace()
    ensures EnabledRun(INITIAL, WINDOW_RACE)
    ensures var st := Run(INITIAL, WINDOW_RACE);
            && Succeeded(Request("s", ONE, Some(-1))) in st.outcomes
            && |st.rows| == 2 && st.rows[0].version == 1 && st.rows[1].version == 0
  {
    var r := WINDOW_RACE;
    OneMore([], INITIAL, r[0]);
    assert [] + [r[0]] == [r[0]];
    FirstCommit([r[0]], Next(INITIAL, r[0]), r[1].req, 0);
    assert [r[0]] + [r[1]] + Rest(0, 0, 2) == r[..5];
    var st := Run(INITIAL, r[..5]);
    var e, snap := Event(1, "s", 0, "e", EMPTY, 0), Event(2, "s", 1, SNAP, EMPTY, 0);
    assert st.rows == [e, snap];
    Pruned(e, snap);
    StaleAfterWindow(r[..5], st, snap, Request("s", ONE, Some(-1)));
    assert r[..5] + [r[5]] + Rest(1, 0, 1) == r;
  }

  lemma StaleAfterWindow(actions: seq<Action>, st: State, snap: Event, req: Request)
    requires EnabledRun(INITIAL, actions) && Run(INITIAL, actions) == st
    requires st.lock.None? && WriterOf(st, 1) == Probed(req, -1) && req == Request("s", ONE, Some(-1))
    requires Windowed(Table(st.rows, st.sequence), "s", 1, None).rows == [snap] && snap.version == 1
    ensures var all := actions + [TruncateWindow("s", 1, None)] + Rest(1, 0, 1);
            var end := Run(INITIAL, all);
            && EnabledRun(INITIAL, all)
            && Succeeded(req) in end.outcomes
            && |end.rows| == 2 && end.rows[0].version == 1 && end.rows[1].version == 0
  {
    var truncate := TruncateWindow("s", 1, None);
    OneMore(actions, st, truncate);
    Lands(actions + [truncate], Next(st, truncate), 1, 0);
  }

  lemma Pruned(e: Event, snap: Event)
    requires Qualifies(snap, "s", 1, None) && !Qualifies(e, "s", 1, None)
    requires e.stream == "s" && e.id < snap.id
    ensures Windowed(Table([e, snap], snap.id), "s", 1, None).rows == [snap]
  {
    var rows := [e, snap];
    assert rows[..1] == [e] && [e][..0] == [];
    var q := (x: Event) => Qualifies(x, "s", 1, None);
    assert Filter(q, [e]) == [] && Filter(q, rows) == [snap];
    var keep := (x: Event) => !(x.stream == "s" && x.id < snap.id);
    assert Filter(keep, [e]) == [] && Filter(keep, rows) == [snap];
  }
}
