/** The filter of the bulk subscription operations. */
module StreamFilters {
  import opened Seqs
  import opened StreamPattern
  import Sub = Subscriptions

  datatype StreamFilter = StreamFilter(
    stream: Option<string>, streamExact: bool,
    source: Option<string>, sourceExact: bool,
    blocked: Option<bool>, lane: Option<string>)

  // A name is given exactly, or as a pattern of the portable subset.
  predicate Usable(name: Option<string>, exact: bool) {
    name.Some? && !exact ==> Portable(Body(name.value))
  }

  predicate Convertible(f: StreamFilter) {
    Usable(f.stream, f.streamExact) && Usable(f.source, f.sourceExact)
  }

  // A pattern is read as a regular expression.
  ghost predicate NameMatches(name: string, exact: bool, s: string)
    requires Usable(Some(name), exact)
  {
    if exact then s == name else Search(name, s)
  }

  ghost predicate Selects(f: StreamFilter, s: string, row: Sub.Row)
    requires Convertible(f)
  {
    && (f.stream.Some? ==> NameMatches(f.stream.value, f.streamExact, s))
    && (f.source.Some? ==> row.source.Some? && NameMatches(f.source.value, f.sourceExact, row.source.value))
    && (f.blocked.Some? ==> row.blocked == f.blocked.value)
    && (f.lane.Some? ==> row.lane == f.lane.value)
  }

  ghost function Selected(f: StreamFilter, t: Sub.Table): set<string>
    requires Convertible(f)
  {
    set s | s in t && Selects(f, s, t[s])
  }

  // One condition of the clause, and what its argument is compared with.
  datatype Condition = Anything | Equals(name: string) | Globs(glob: string)

  method Compiled(name: Option<string>, exact: bool) returns (r: Option<Condition>)
    ensures r.Some? <==> Usable(name, exact)
    ensures r.Some? ==> IsCondition(name, exact, r.value)
  {
    if name.None? {
      return Some(Anything);
    }
    if exact {
      return Some(Equals(name.value));
    }
    var glob := StreamPatternToGlob(name.value);
    CompileKeepsMeaning(name.value, "");
    if glob.ValidationError? {
      return None;
    }
    forall s ensures Glob(glob.value, s) <==> NameMatches(name.value, exact, s) {
      CompileKeepsMeaning(name.value, s);
    }
    r := Some(Globs(glob.value));
  }

  predicate Holds(c: Condition, s: string) {
    match c
    case Anything => true
    case Equals(name) => s == name
    case Globs(glob) => '[' !in glob && Glob(glob, s)
  }

  ghost predicate IsCondition(name: Option<string>, exact: bool, c: Condition)
    requires Usable(name, exact)
  {
    if name.None? then c == Anything
    else forall s :: Holds(c, s) <==> NameMatches(name.value, exact, s)
  }

  // The compiled clause.
  predicate Clause(f: StreamFilter, stream: Condition, source: Condition, s: string, row: Sub.Row) {
    && Holds(stream, s)
    && (f.source.Some? ==> row.source.Some? && Holds(source, row.source.value))
    && (f.blocked.Some? ==> row.blocked == f.blocked.value)
    && (f.lane.Some? ==> row.lane == f.lane.value)
  }

  lemma ClauseMeans(f: StreamFilter, stream: Condition, source: Condition, s: string, row: Sub.Row)
    requires Convertible(f)
    requires IsCondition(f.stream, f.streamExact, stream) && IsCondition(f.source, f.sourceExact, source)
    ensures Clause(f, stream, source, s, row) <==> Selects(f, s, row)
  {
  }

  // `SELECT stream FROM streams WHERE <clause>`
  method Matching(f: StreamFilter, t: Sub.Table) returns (r: Option<set<string>>)
    ensures r.Some? <==> Convertible(f)
    ensures r.Some? ==> r.value == Selected(f, t)
  {
    var stream := Compiled(f.stream, f.streamExact);
    if stream.None? {
      return None;
    }
    var source := Compiled(f.source, f.sourceExact);
    if source.None? {
      return None;
    }
    var names := set s | s in t && Clause(f, stream.value, source.value, s, t[s]);
    Same(f, stream.value, source.value, t);
    r := Some(names);
  }

  lemma Same(f: StreamFilter, stream: Condition, source: Condition, t: Sub.Table)
    requires Convertible(f)
    requires IsCondition(f.stream, f.streamExact, stream) && IsCondition(f.source, f.sourceExact, source)
    ensures (set s | s in t && Clause(f, stream, source, s, t[s])) == Selected(f, t)
  {
    hide Clause, Selects;
    forall s | s in t ensures Clause(f, stream, source, s, t[s]) <==> Selects(f, s, t[s]) {
      ClauseMeans(f, stream, source, s, t[s]);
    }
  }
}
