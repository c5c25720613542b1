/** What the event table holds, row by row: the messages of the accepted
    commits, and what a windowed truncate leaves of them. */
module LogContents {
  import opened Seqs
  import opened Values
  import opened EventLog
  import Replay

  // ---------------------------------------------------------------- commits

  // The messages of the accepted commits of a stream, one after the other. A
  // commit is accepted when it expects no version, or that of the last message
  // so far, counting from zero.
  ghost function Accepted(ops: seq<Replay.Op>, s: string): seq<Message> {
    if ops == [] then []
    else
      var n := |ops| - 1;
      var before, op := Accepted(ops[..n], s), ops[n];
      if op.CommitOp? && op.stream == s && (op.expected.Some? ==> op.expected.value == |before| - 1)
      then before + op.msgs else before
  }

  ghost predicate Holds(of: seq<Event>, msgs: seq<Message>) {
    && |of| == |msgs|
    && forall i :: 0 <= i < |of| ==> of[i].name == msgs[i].name && of[i].data == msgs[i].data && of[i].version == i
  }

  // Without truncates a stream's rows are those messages, numbered from zero.
  lemma {:induction false} LogIsMessages(init: Value, ops: seq<Replay.Op>, s: string)
    requires forall op :: op in ops ==> op.CommitOp?
    ensures Holds(Of(Replay.Run(init, ops).table.rows, s), Accepted(ops, s))
  {
    if ops != [] {
      var n := |ops| - 1;
      assert forall op :: op in ops[..n] ==> op in ops;
      assert ops[n] in ops;
      LogIsMessages(init, ops[..n], s);
      LogStep(init, Replay.Run(init, ops[..n]), ops[n], s, Accepted(ops[..n], s));
    }
  }

  lemma LogStep(init: Value, st: Replay.State, op: Replay.Op, s: string, msgs: seq<Message>)
    requires op.CommitOp? && Holds(Of(st.table.rows, s), msgs)
    ensures Holds(Of(Replay.Next(init, st, op).table.rows, s),
                  if op.stream == s && (op.expected.Some? ==> op.expected.value == |msgs| - 1)
                  then msgs + op.msgs else msgs)
  {
    Replay.CommitShape(init, st, op, s);
    MaxVersionIsLast(st.table.rows, s);
    if op.stream == s {
      AddedHolds(st, op, Of(st.table.rows, s), msgs);
    }
  }

  lemma AddedHolds(st: Replay.State, op: Replay.Op, of: seq<Event>, msgs: seq<Message>)
    requires op.CommitOp? && Holds(of, msgs) && MaxVersion(st.table.rows, op.stream) == |of| - 1
    ensures Holds(of + Replay.Added(st, op),
                  if op.expected.Some? ==> op.expected.value == |msgs| - 1 then msgs + op.msgs else msgs)
  {
  }

  // ---------------------------------------------------------------- windowed truncates

  // A snapshot a windowed truncate may cut at: older than the cutoff, and at
  // or below the cap.
  predicate SafeCut(q: Event, s: string, before: int, maxId: Option<int>) {
    q.stream == s && q.name == "__snapshot__" && q.created < before && (maxId.Some? ==> q.id <= maxId.value)
  }

  // `c` is the latest of them.
  ghost predicate LatestCut(rows: seq<Event>, c: Event, s: string, before: int, maxId: Option<int>) {
    c in rows && SafeCut(c, s, before, maxId) && forall q :: q in rows && SafeCut(q, s, before, maxId) ==> q.id <= c.id
  }

  ghost predicate NoCut(rows: seq<Event>, s: string, before: int, maxId: Option<int>) {
    forall q :: q in rows ==> !SafeCut(q, s, before, maxId)
  }

  lemma BoundaryIsLatest(rows: seq<Event>, s: string, before: int, maxId: Option<int>)
    requires Rising(rows)
    ensures var b := Boundary(rows, s, before, maxId);
            if b.None? then NoCut(rows, s, before, maxId) else LatestCut(rows, b.value, s, before, maxId)
  {
    var p := (e: Event) => Qualifies(e, s, before, maxId);
    var found := Filter(p, rows);
    FilterMember(p, rows);
    RisingFilter(p, rows);
    forall q | q in rows && SafeCut(q, s, before, maxId) ensures q in found && q.id <= found[|found| - 1].id {
      var i :| 0 <= i < |found| && found[i] == q;
    }
    if found != [] {
      assert found[|found| - 1] in found;
    }
  }

  // What is left: in id order, every row of another stream, and every row of
  // this one that no safe cut lies above.
  lemma WindowedExactly(t: Table, s: string, before: int, maxId: Option<int>)
    requires Valid(t)
    ensures var t' := Windowed(t, s, before, maxId);
            && Rising(t'.rows) && t'.sequence == t.sequence
            && forall e :: e in t'.rows <==>
                 && e in t.rows
                 && (e.stream == s ==> forall q :: q in t.rows && SafeCut(q, s, before, maxId) ==> q.id <= e.id)
  {
    BoundaryIsLatest(t.rows, s, before, maxId);
    var b := Boundary(t.rows, s, before, maxId);
    if b.Some? {
      var keep := (e: Event) => !(e.stream == s && e.id < b.value.id);
      FilterMember(keep, t.rows);
      RisingFilter(keep, t.rows);
    }
  }
}
