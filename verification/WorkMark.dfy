/** The work mark: `at < correlated_at` stands in for probing the log. */
module WorkMark {
  import opened Seqs
  import opened EventLog
  import Sub = Subscriptions
  import StreamPattern

  predicate Literal(source: string) {
    forall c :: c in source ==> c !in StreamPattern.META
  }

  // The streams a subscription's source reads: all of them without one, its
  // own name when literal, the ones it matches when it is a pattern. An empty
  // source is dropped from the query like a missing one; a pattern outside the
  // portable subset never gets past `subscribe`.
  predicate Reads(source: Option<string>, stream: string) {
    || source.None?
    || source.value == ""
    || (if Literal(source.value) then stream == source.value
        else var glob := StreamPattern.Compile(source.value);
             glob.Ok? && StreamPattern.Glob(glob.value, stream))
  }

  function Window(source: Option<string>): Event -> bool {
    (e: Event) => Reads(source, e.stream)
  }

  // The events a subscription has in its fetch window past its watermark.
  function Due(rows: seq<Event>, row: Sub.Row): seq<Event> {
    Fetch(rows, Window(row.source), row.at)
  }

  // The running maximum of `correlate`: the highest id in the window.
  function Mark(rows: seq<Event>, source: Option<string>): int {
    if rows == [] then -1
    else
      var n := |rows| - 1;
      var mark := Mark(rows[..n], source);
      if Reads(source, rows[n].stream) && rows[n].name != SNAP && rows[n].id > mark then rows[n].id else mark
  }

  function Correlated(t: Sub.Table, rows: seq<Event>, listed: set<string>): Sub.Table {
    map s | s in t :: if s in listed then Marked(t[s], Mark(rows, t[s].source)) else t[s]
  }

  function Marked(row: Sub.Row, mark: int): Sub.Row {
    if mark > row.at then row.(correlatedAt := Sub.Raise(row.correlatedAt, Some(mark))) else row
  }

  lemma {:induction false} MarkIsHighest(rows: seq<Event>, source: Option<string>)
    ensures forall e :: e in rows && Reads(source, e.stream) && e.name != SNAP ==> e.id <= Mark(rows, source)
    ensures Mark(rows, source) == -1
         || exists e :: e in rows && Reads(source, e.stream) && e.name != SNAP && e.id == Mark(rows, source)
  {
    if rows != [] {
      var n := |rows| - 1;
      assert rows == rows[..n] + [rows[n]];
      MarkIsHighest(rows[..n], source);
    }
  }

  lemma DueMember(rows: seq<Event>, row: Sub.Row)
    ensures forall e :: e in Due(rows, row) <==>
              e in rows && Reads(row.source, e.stream) && e.name != SNAP && e.id > row.at
  {
    var window := Window(row.source);
    FilterMember((e: Event) => window(e) && e.name != SNAP && e.id > row.at, rows);
  }

  // After `correlate`, a listed subscription with events due is claimable.
  lemma CorrelateFindsWork(t: Sub.Table, rows: seq<Event>, listed: set<string>, s: string)
    requires s in t && s in listed
    ensures Due(rows, t[s]) != [] ==> Sub.HasWork(Correlated(t, rows, listed)[s])
  {
    if Due(rows, t[s]) != [] {
      DueMember(rows, t[s]);
      MarkIsHighest(rows, t[s].source);
      assert Due(rows, t[s])[0] in Due(rows, t[s]);
    }
  }

  // ---------------------------------------------------------------- runs

  // Everything that happens without truncation or migration: commits, single
  // table steps, and correlate passes.
  datatype Step =
    | Commits(stream: string, msgs: seq<Message>, expected: Option<int>, now: int)
    | Steps(op: Sub.Op)
    | Correlates(listed: set<string>)

  datatype State = State(log: Table, t: Sub.Table)

  function Next(st: State, step: Step): State {
    match step
    case Commits(stream, msgs, expected, now) => st.(log := Commit(st.log, stream, msgs, expected, now))
    case Steps(op) => st.(t := Sub.Apply(st.t, op))
    case Correlates(listed) => st.(t := Correlated(st.t, st.log.rows, listed))
  }

  function Run(st: State, steps: seq<Step>): State {
    if steps == [] then st else Next(Run(st, steps[..|steps| - 1]), steps[|steps| - 1])
  }

  const INITIAL := State(Table([], 0), map[])

  // The id of an event in the window.
  predicate Seen(rows: seq<Event>, source: Option<string>, mark: int) {
    exists e :: e in rows && Reads(source, e.stream) && e.name != SNAP && e.id == mark
  }

  predicate MarkSound(rows: seq<Event>, row: Sub.Row) {
    row.at >= -1 && (row.correlatedAt.Some? ==> Seen(rows, row.source, row.correlatedAt.value))
  }

  ghost predicate Sound(st: State) {
    forall s :: s in st.t ==> MarkSound(st.log.rows, st.t[s])
  }

  // A caller that marks a row passes the id of an event in the row's window,
  // and no ack moves a watermark below the start of the log.
  predicate Sane(st: State, step: Step) {
    step.Steps? ==>
      match step.op
      case Subscribe(stream, source, _, _, mark) =>
        mark.Some? ==> Seen(st.log.rows, if stream in st.t then st.t[stream].source else source, mark.value)
      case Ack(_, _, at, _, _) => at >= -1
      case _ => true
  }

  ghost predicate SaneAt(steps: seq<Step>, i: int) {
    0 <= i < |steps| ==> Sane(Run(INITIAL, steps[..i]), steps[i])
  }

  ghost predicate SaneRun(steps: seq<Step>) {
    forall i :: SaneAt(steps, i)
  }

  lemma SeenMore(rows: seq<Event>, more: seq<Event>, source: Option<string>, mark: int)
    requires Seen(rows, source, mark) && forall e :: e in rows ==> e in more
    ensures Seen(more, source, mark)
  {
  }

  lemma RowSound(st: State, step: Step, s: string)
    requires Sound(st) && Sane(st, step) && s in Next(st, step).t
    ensures MarkSound(Next(st, step).log.rows, Next(st, step).t[s])
  {
    if s in st.t {
      assert MarkSound(st.log.rows, st.t[s]);
      MarkIsHighest(st.log.rows, st.t[s].source);
      if st.t[s].correlatedAt.Some? {
        SeenMore(st.log.rows, Next(st, step).log.rows, st.t[s].source, st.t[s].correlatedAt.value);
      }
    }
  }

  lemma NextSound(st: State, step: Step)
    requires Sound(st) && Sane(st, step)
    ensures Sound(Next(st, step))
  {
    forall s | s in Next(st, step).t ensures MarkSound(Next(st, step).log.rows, Next(st, step).t[s]) {
      RowSound(st, step, s);
    }
  }

  lemma {:induction false} RunSound(steps: seq<Step>)
    requires SaneRun(steps)
    ensures Sound(Run(INITIAL, steps))
  {
    if steps != [] {
      var n := |steps| - 1;
      forall i ensures SaneAt(steps[..n], i) {
        assert SaneAt(steps, i);
        if 0 <= i < n {
          assert steps[..n][..i] == steps[..i];
        }
      }
      RunSound(steps[..n]);
      assert SaneAt(steps, n);
      NextSound(Run(INITIAL, steps[..n]), steps[n]);
    }
  }

  // In any such run, the mark predicate finds no work that is not there; right
  // after a correlate pass it agrees exactly with probing the log.
  lemma MarkAgreesWithProbe(steps: seq<Step>, listed: set<string>, s: string)
    requires SaneRun(steps)
    requires s in Run(INITIAL, steps).t
    ensures var st := Run(INITIAL, steps);
            Sub.HasWork(st.t[s]) ==> Due(st.log.rows, st.t[s]) != []
    ensures var st := Run(INITIAL, steps + [Correlates(listed)]);
            s in listed ==> s in st.t && (Sub.HasWork(st.t[s]) <==> Due(st.log.rows, st.t[s]) != [])
  {
    RunSound(steps);
    var st := Run(INITIAL, steps);
    WorkIsDue(st.log.rows, st.t[s]);
    var all := steps + [Correlates(listed)];
    assert all[..|steps|] == steps;
    if s in listed {
      AfterPass(st, listed, s);
    }
  }

  lemma AfterPass(st: State, listed: set<string>, s: string)
    requires Sound(st) && s in st.t && s in listed
    ensures var st' := Next(st, Correlates(listed));
            s in st'.t && (Sub.HasWork(st'.t[s]) <==> Due(st'.log.rows, st'.t[s]) != [])
  {
    var st' := Next(st, Correlates(listed));
    NextSound(st, Correlates(listed));
    WorkIsDue(st'.log.rows, st'.t[s]);
    CorrelateFindsWork(st.t, st.log.rows, listed, s);
  }

  lemma WorkIsDue(rows: seq<Event>, row: Sub.Row)
    requires MarkSound(rows, row)
    ensures Sub.HasWork(row) ==> Due(rows, row) != []
  {
    DueMember(rows, row);
    if Sub.HasWork(row) {
      var e :| e in rows && Reads(row.source, e.stream) && e.name != SNAP && e.id == row.correlatedAt.value;
      assert e in Due(rows, row);
    }
  }

  // ---------------------------------------------------------------- the window, spelled out

  predicate RegexSyntax(c: char) {
    c in {'\\', '^', '$', '.', '(', ')', '[', ']', '{', '}', '|', '+', '?', '*'}
  }

  // What a subscription reads: everything without a source or with an empty
  // one; the stream of that name for a source free of regex syntax; else the
  // streams a portable pattern finds itself in.
  lemma ReadsExactly(source: string, stream: string)
    ensures Reads(None, stream) && Reads(Some(""), stream)
    ensures source != "" && (forall c :: c in source ==> !RegexSyntax(c)) ==>
              (Reads(Some(source), stream) <==> stream == source)
    ensures (exists c :: c in source && RegexSyntax(c)) ==>
              (Reads(Some(source), stream) <==>
               StreamPattern.Portable(StreamPattern.Body(source)) && StreamPattern.Search(source, stream))
  {
    StreamPattern.CompileKeepsMeaning(source, stream);
    assert Literal(source) <==> forall c :: c in source ==> !RegexSyntax(c);
  }

  // Right after a pass, a listed subscription whose source is a pattern is
  // claimable exactly if some event past its watermark, no snapshot, is on a
  // stream the pattern finds itself in.
  lemma PatternAgreesWithProbe(steps: seq<Step>, listed: set<string>, s: string)
    requires SaneRun(steps) && s in Run(INITIAL, steps).t && s in listed
    requires var source := Run(INITIAL, steps).t[s].source;
             && source.Some? && StreamPattern.Portable(StreamPattern.Body(source.value))
             && exists c :: c in source.value && RegexSyntax(c)
    ensures var st := Run(INITIAL, steps + [Correlates(listed)]);
            && s in st.t && st.t[s].source == Run(INITIAL, steps).t[s].source
            && var row := st.t[s];
               (row.correlatedAt.Some? && row.at < row.correlatedAt.value) <==>
               exists e :: e in st.log.rows && e.name != "__snapshot__" && e.id > row.at
                           && StreamPattern.Search(row.source.value, e.stream)
  {
    var before, all := Run(INITIAL, steps), steps + [Correlates(listed)];
    assert all[..|steps|] == steps;
    var st := Run(INITIAL, all);
    assert st == Next(before, Correlates(listed));
    RunSound(steps);
    AfterPass(before, listed, s);
    var row := st.t[s];
    DueMember(st.log.rows, row);
    DueWitness(st.log.rows, row);
    forall e | e in st.log.rows
      ensures Reads(row.source, e.stream) <==> StreamPattern.Search(row.source.value, e.stream)
    {
      ReadsExactly(row.source.value, e.stream);
    }
  }

  lemma DueWitness(rows: seq<Event>, row: Sub.Row)
    ensures Due(rows, row) != [] <==> exists e :: e in Due(rows, row)
  {
    if Due(rows, row) != [] {
      assert Due(rows, row)[0] in Due(rows, row);
    }
  }
}
