/** The `correlate` helper: it lists subscriptions, reads each one's fetch
    window for its highest id, and writes the marks through `subscribe`. */
module Correlate {
  import opened Seqs
  import opened SqliteSteps
  import opened SqliteStore
  import Cor = Correlator
  import Log = EventLog
  import Sub = Subscriptions
  import Paging
  import WorkMark

  const LISTED := 1000

  // The rows `query_streams` lists: the first `limit` by name.
  ghost function Listed(t: Sub.Table, limit: nat): set<string> {
    Names(Take(Paging.Ordered(t.Keys), limit))
  }

  method HighestInWindow(store: SqliteStore, source: Option<string>) returns (mark: int)
    ensures mark == WorkMark.Mark(store.events, source)
  {
    mark := -1;
    for i := 0 to |store.events|
      invariant mark == WorkMark.Mark(store.events[..i], source)
    {
      assert store.events[..i + 1][..i] == store.events[..i];
      var e := store.events[i];
      if WorkMark.Reads(source, e.stream) && e.name != Log.SNAP && e.id > mark {
        mark := e.id;
      }
    }
    assert store.events[..|store.events|] == store.events;
  }

  // What a helper sends for a row: its mark, if that is past the watermark,
  // with the row's own priority and lane carried back.
  function MarkOf(row: Sub.Row, s: string, mark: int): seq<Subscription> {
    if mark > row.at then [Subscription(s, None, row.priority, row.lane, Some(mark))] else []
  }

  // Sending it through `subscribe` changes nothing but the mark.
  lemma MarkOne(t: Sub.Table, marks: seq<Subscription>, s: string, mark: int)
    requires var before := Sub.Run(t, Subscribes(marks)); s in t && s in before && before[s] == t[s]
    ensures var before := Sub.Run(t, Subscribes(marks));
            Sub.Run(t, Subscribes(marks + MarkOf(t[s], s, mark))) == before[s := WorkMark.Marked(t[s], mark)]
  {
    var before := Sub.Run(t, Subscribes(marks));
    if mark > t[s].at {
      var more := marks + MarkOf(t[s], s, mark);
      var op := Sub.Subscribe(s, None, t[s].priority, t[s].lane, Some(mark));
      assert Subscribes(more)[..|marks|] == Subscribes(marks) && Subscribes(more)[|marks|] == op;
      assert Sub.Run(t, Subscribes(more)) == Sub.Apply(before, op);
      assert Sub.Step(t[s], op) == WorkMark.Marked(t[s], mark);
    } else {
      assert marks + [] == marks && before[s := t[s]] == before;
    }
  }

  method Marks(store: SqliteStore, rows: seq<string>) returns (marks: seq<Subscription>)
    requires forall i :: 0 <= i < |rows| ==> rows[i] in store.streams && rows[i] !in rows[..i]
    ensures Sub.Run(store.streams, Subscribes(marks)) == WorkMark.Correlated(store.streams, store.events, Names(rows))
    ensures forall k :: 0 <= k < |marks| ==> marks[k].source.None?
  {
    ghost var t, log := store.streams, store.events;
    marks := [];
    assert WorkMark.Correlated(t, log, {}) == t;
    for i := 0 to |rows|
      invariant Sub.Run(t, Subscribes(marks)) == WorkMark.Correlated(t, log, Names(rows[..i]))
      invariant forall k :: 0 <= k < |marks| ==> marks[k].source.None?
    {
      var s := rows[i];
      var row := store.streams[s];
      var mark := HighestInWindow(store, row.source);
      NamesSnoc(rows, i);
      MarkOne(t, marks, s, mark);
      assert WorkMark.Correlated(t, log, Names(rows[..i]))[s := WorkMark.Marked(row, mark)]
          == WorkMark.Correlated(t, log, Names(rows[..i + 1]));
      marks := marks + MarkOf(row, s, mark);
    }
    assert rows[..|rows|] == rows;
  }

  // `subscribe(marks)` without a position or a correlator.
  method Send(store: SqliteStore, marks: seq<Subscription>, now: int)
    requires Sub.Paired(store.streams) && Cor.UnderShared(store.correlated)
    requires forall k :: 0 <= k < |marks| ==> marks[k].source.None?
    modifies store`streams, store`correlated
    ensures Sub.Paired(store.streams)
    ensures store.streams == Sub.Run(old(store.streams), Subscribes(marks))
    ensures store.correlated == old(store.correlated)
  {
    var r := store.Subscribe(marks, None, None, now);
  }

  method Correlate(store: SqliteStore, now: int)
    requires Sub.Paired(store.streams) && Cor.UnderShared(store.correlated)
    modifies store`streams, store`correlated
    ensures Sub.Paired(store.streams)
    ensures store.streams == WorkMark.Correlated(old(store.streams), store.events, Listed(old(store.streams), LISTED))
    ensures store.correlated == old(store.correlated)
  {
    var rows := Paging.NamePage(store.streams.Keys, None, LISTED);
    Listing(store.streams, rows, LISTED);
    var marks := Marks(store, rows);
    if marks != [] {
      Send(store, marks, now);
    }
  }

  lemma Listing(t: Sub.Table, rows: seq<string>, limit: nat)
    requires rows <= Paging.Ordered(Paging.Later(t.Keys, None))
    requires |rows| <= limit && (|rows| < limit ==> rows == Paging.Ordered(Paging.Later(t.Keys, None)))
    ensures Names(rows) == Listed(t, limit)
    ensures forall i :: 0 <= i < |rows| ==> rows[i] in t && rows[i] !in rows[..i]
  {
    assert Paging.Later(t.Keys, None) == t.Keys;
    Paging.OrderedSound(t.Keys);
    assert rows == Take(Paging.Ordered(t.Keys), limit);
    forall i | 0 <= i < |rows| ensures rows[i] in t && rows[i] !in rows[..i] {
      assert rows[i] == Paging.Ordered(t.Keys)[i];
      forall j | 0 <= j < i ensures rows[j] != rows[i] {
        assert Paging.Less(Paging.Ordered(t.Keys)[j], Paging.Ordered(t.Keys)[i]);
        Paging.LessTotal(rows[i], rows[i]);
      }
    }
  }
}
