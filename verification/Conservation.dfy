/** What becomes of every grant: conservation over any run of row steps. */
module Conservation {
  import opened Seqs
  import opened Subscriptions

  datatype Fate = Acked | Deferred | Superseded | Voided

  // How a step ends the lease a row holds, if it does.
  function Ends(t: Table, op: Op): Option<Fate> {
    if op.stream !in t || t[op.stream].leasedBy.None? then None
    else
      match op
      case Grant(_, _, _, _) => Some(Superseded)
      case Ack(_, holder, _, _, due) =>
        if Owned(t[op.stream], holder) then Some(if due.None? then Acked else Deferred) else None
      case Reset(_) => Some(Voided)
      case Unblock(_) => if t[op.stream].blocked then Some(Voided) else None
      case _ => None
  }

  function Count(t: Table, ops: seq<Op>, fate: Fate): nat {
    if ops == [] then 0
    else
      var n := |ops| - 1;
      Count(t, ops[..n], fate) + (if Ends(Run(t, ops[..n]), ops[n]) == Some(fate) then 1 else 0)
  }

  function AllGrants(ops: seq<Op>): nat {
    if ops == [] then 0
    else AllGrants(ops[..|ops| - 1]) + (if ops[|ops| - 1].Grant? then 1 else 0)
  }

  function Held(t: Table): set<string> {
    set s | s in t && t[s].leasedBy.Some? && !t[s].blocked
  }

  function HeldBlocked(t: Table): set<string> {
    set s | s in t && t[s].leasedBy.Some? && t[s].blocked
  }

  function Leased(t: Table): set<string> {
    set s | s in t && t[s].leasedBy.Some?
  }

  lemma LeasedAfter(t: Table, op: Op)
    requires Allowed(t, op)
    ensures Leased(Apply(t, op)) ==
            if op.Grant? then Leased(t) + {op.stream}
            else if Ends(t, op).Some? then Leased(t) - {op.stream} else Leased(t)
    ensures Ends(t, op).Some? ==> op.stream in Leased(t)
    ensures op.Grant? && op.stream in Leased(t) ==> Ends(t, op).Some?
  {
  }

  // ---------------------------------------------------------------- each grant

  predicate EndsAt(t: Table, ops: seq<Op>, s: string, j: int) {
    0 <= j < |ops| && ops[j].stream == s && Ends(Run(t, ops[..j]), ops[j]).Some?
  }

  // No step after the grant at `g`, up to `n`, ends a lease on its stream.
  ghost predicate Open(t: Table, ops: seq<Op>, g: int, n: int) {
    0 <= g < |ops| && forall j :: g < j < n ==> !EndsAt(t, ops, ops[g].stream, j)
  }

  // The step at `j` is the first to do so.
  ghost predicate EndsFirst(t: Table, ops: seq<Op>, g: int, j: int) {
    Open(t, ops, g, j) && g < j && EndsAt(t, ops, ops[g].stream, j)
  }

  // The row carries the lease of this grant.
  predicate Carries(t: Table, op: Op)
    requires op.Grant?
  {
    op.stream in t && t[op.stream].leasedBy == Some(op.holder) && t[op.stream].leasedUntil == Some(op.until)
  }

  lemma CarriedStep(t: Table, op: Op, grant: Op)
    requires grant.Grant?
    ensures op == grant && op.stream in t ==> Carries(Apply(t, op), grant)
    ensures Carries(t, grant) && (op.stream != grant.stream || Ends(t, op).None?) ==> Carries(Apply(t, op), grant)
  {
  }

  lemma {:induction false} OpenCarries(t: Table, ops: seq<Op>, g: nat, n: nat)
    requires AllowedRun(t, ops) && g < n <= |ops| && ops[g].Grant? && Open(t, ops, g, n)
    ensures Carries(Run(t, ops[..n]), ops[g])
  {
    RunSnoc(t, ops, n - 1);
    CarriedStep(Run(t, ops[..n - 1]), ops[n - 1], ops[g]);
    if g + 1 < n {
      OpenCarries(t, ops, g, n - 1);
      assert !EndsAt(t, ops, ops[g].stream, n - 1);
    } else {
      assert AllowedAt(t, ops, g);
    }
  }

  lemma {:induction false} FirstEnd(t: Table, ops: seq<Op>, g: nat, n: nat) returns (j: nat)
    requires g < n <= |ops| && !Open(t, ops, g, n)
    ensures j < n && EndsFirst(t, ops, g, j)
  {
    if Open(t, ops, g, n - 1) {
      j := n - 1;
    } else {
      j := FirstEnd(t, ops, g, n - 1);
    }
  }

  // What the step that ends a grant's lease can be: it finds the row still
  // carrying that very lease; an ack or defer is by the grant's own holder;
  // and a later claim comes only once the lease has expired.
  ghost predicate EndedProperly(t: Table, ops: seq<Op>, g: int, j: int)
    requires 0 <= g < |ops| && 0 <= j < |ops| && ops[g].Grant?
  {
    && Carries(Run(t, ops[..j]), ops[g])
    && (ops[j].Ack? ==> ops[j].holder == ops[g].holder)
    && (ops[j].Grant? ==> ops[g].until <= ops[j].now)
  }

  // Every grant is conserved. Either no later step ends its lease and the row
  // still carries it, or exactly one step is the first to end it, properly.
  lemma EveryGrantSettled(t: Table, ops: seq<Op>, g: nat)
    requires AllowedRun(t, ops) && g < |ops| && ops[g].Grant?
    ensures if Open(t, ops, g, |ops|) then Carries(Run(t, ops), ops[g])
            else exists j :: EndsFirst(t, ops, g, j) && EndedProperly(t, ops, g, j)
    ensures forall j, k :: EndsFirst(t, ops, g, j) && EndsFirst(t, ops, g, k) ==> j == k
    ensures Open(t, ops, g, |ops|) ==> forall j :: !EndsFirst(t, ops, g, j)
  {
    if Open(t, ops, g, |ops|) {
      OpenCarries(t, ops, g, |ops|);
      assert ops[..|ops|] == ops;
    } else {
      var j := FirstEnd(t, ops, g, |ops|);
      OpenCarries(t, ops, g, j);
      assert AllowedAt(t, ops, j);
      assert EndedProperly(t, ops, g, j);
    }
  }

  // ---------------------------------------------------------------- totals

  ghost function OpenGrants(t: Table, ops: seq<Op>, n: nat): set<int>
    requires n <= |ops|
  {
    set g | 0 <= g < n && ops[g].Grant? && Open(t, ops, g, n)
  }

  ghost predicate ClosedBy(t: Table, ops: seq<Op>, g: int, n: int, fate: Fate) {
    exists j :: g < j < n && FateAt(t, ops, g, j, fate)
  }

  ghost predicate FateAt(t: Table, ops: seq<Op>, g: int, j: int, fate: Fate) {
    EndsFirst(t, ops, g, j) && Ends(Run(t, ops[..j]), ops[j]) == Some(fate)
  }

  ghost function Closed(t: Table, ops: seq<Op>, n: nat, fate: Fate): set<int>
    requires n <= |ops|
  {
    set g | 0 <= g < n && ops[g].Grant? && ClosedBy(t, ops, g, n, fate)
  }

  // A leased row carries an open grant, and only one.
  lemma {:induction false} LeasedOpen(t: Table, ops: seq<Op>, n: nat, s: string) returns (g: nat)
    requires Unleased(t) && AllowedRun(t, ops) && n <= |ops| && s in Leased(Run(t, ops[..n]))
    ensures g < n && ops[g].Grant? && ops[g].stream == s && Open(t, ops, g, n)
  {
    assert n > 0 by { assert ops[..0] == []; }
    RunSnoc(t, ops, n - 1);
    assert AllowedAt(t, ops, n - 1);
    LeasedBefore(Run(t, ops[..n - 1]), ops[n - 1], s);
    if ops[n - 1].Grant? && ops[n - 1].stream == s {
      g := n - 1;
    } else {
      g := LeasedOpen(t, ops, n - 1, s);
      assert !EndsAt(t, ops, s, n - 1);
    }
  }

  lemma LeasedBefore(t: Table, op: Op, s: string)
    requires Allowed(t, op) && s in Leased(Apply(t, op))
    ensures (op.Grant? && op.stream == s) || (s in Leased(t) && (op.stream == s ==> Ends(t, op).None?))
  {
    LeasedAfter(t, op);
  }

  lemma OpenOnce(t: Table, ops: seq<Op>, g: nat, h: nat, n: nat)
    requires AllowedRun(t, ops) && g <= h < n <= |ops| && ops[g].Grant? && ops[h].Grant?
    requires ops[g].stream == ops[h].stream && Open(t, ops, g, n)
    ensures g == h
  {
    if g < h {
      assert Open(t, ops, g, h);
      OpenCarries(t, ops, g, h);
      assert EndsAt(t, ops, ops[g].stream, h);
    }
  }

  // A step that ends a lease closes the open grant of its row, and only that.
  lemma OpenEnded(t: Table, ops: seq<Op>, n: nat) returns (g: nat)
    requires Unleased(t) && AllowedRun(t, ops) && n < |ops| && EndsAt(t, ops, ops[n].stream, n)
    ensures g in OpenGrants(t, ops, n) && EndsFirst(t, ops, g, n)
    ensures OpenGrants(t, ops, n + 1) == OpenGrants(t, ops, n) - {g} + Made(ops, n)
    ensures forall h :: h in OpenGrants(t, ops, n) && EndsFirst(t, ops, h, n) ==> h == g
  {
    var s := ops[n].stream;
    g := LeasedOpen(t, ops, n, s);
    OnlyOpen(t, ops, g, n);
    OpenMore(t, ops, n);
  }

  lemma OnlyOpen(t: Table, ops: seq<Op>, g: nat, n: nat)
    requires AllowedRun(t, ops) && n <= |ops| && g in OpenGrants(t, ops, n)
    ensures forall h :: h in OpenGrants(t, ops, n) && ops[h].stream == ops[g].stream ==> h == g
  {
    forall h | h in OpenGrants(t, ops, n) && ops[h].stream == ops[g].stream ensures h == g {
      if g <= h {
        OpenOnce(t, ops, g, h, n);
      } else {
        OpenOnce(t, ops, h, g, n);
      }
    }
  }

  lemma OpenMore(t: Table, ops: seq<Op>, n: nat)
    requires n < |ops|
    ensures forall g :: 0 <= g < n ==>
              (Open(t, ops, g, n + 1) <==> Open(t, ops, g, n) && !EndsAt(t, ops, ops[g].stream, n))
    ensures Open(t, ops, n, n + 1)
  {
  }

  lemma OpenKept(t: Table, ops: seq<Op>, n: nat)
    requires n < |ops| && !EndsAt(t, ops, ops[n].stream, n)
    ensures OpenGrants(t, ops, n + 1) == OpenGrants(t, ops, n) + Made(ops, n)
  {
    OpenMore(t, ops, n);
  }

  function Made(ops: seq<Op>, n: nat): set<int>
    requires n < |ops|
  {
    if ops[n].Grant? then {n} else {}
  }

  // The grants the step at `n` closes with a fate.
  ghost function Ending(t: Table, ops: seq<Op>, n: nat, fate: Fate): set<int>
    requires n < |ops|
  {
    set g | g in OpenGrants(t, ops, n) && FateAt(t, ops, g, n, fate)
  }

  lemma ClosedMore(t: Table, ops: seq<Op>, n: nat, fate: Fate)
    requires n < |ops|
    ensures Closed(t, ops, n + 1, fate) == Closed(t, ops, n, fate) + Ending(t, ops, n, fate)
    ensures Closed(t, ops, n, fate) !! Ending(t, ops, n, fate)
  {
    forall g | 0 <= g <= n
      ensures ClosedBy(t, ops, g, n + 1, fate) <==> ClosedBy(t, ops, g, n, fate) || (g < n && FateAt(t, ops, g, n, fate))
    {
    }
  }

  lemma EndingOne(t: Table, ops: seq<Op>, n: nat, fate: Fate)
    requires Unleased(t) && AllowedRun(t, ops) && n < |ops|
    ensures |Ending(t, ops, n, fate)| == if Ends(Run(t, ops[..n]), ops[n]) == Some(fate) then 1 else 0
  {
    if Ends(Run(t, ops[..n]), ops[n]) == Some(fate) {
      var g := OpenEnded(t, ops, n);
      assert FateAt(t, ops, g, n, fate);
      assert Ending(t, ops, n, fate) == {g};
    } else {
      assert Ending(t, ops, n, fate) == {};
    }
  }

  lemma {:induction false} ClosedCounted(t: Table, ops: seq<Op>, n: nat, fate: Fate)
    requires Unleased(t) && AllowedRun(t, ops) && n <= |ops|
    ensures |Closed(t, ops, n, fate)| == Count(t, ops[..n], fate)
  {
    if n > 0 {
      ClosedCounted(t, ops, n - 1, fate);
      ClosedMore(t, ops, n - 1, fate);
      EndingOne(t, ops, n - 1, fate);
      CountSnoc(t, ops, n, fate);
    }
  }

  lemma CountSnoc(t: Table, ops: seq<Op>, n: nat, fate: Fate)
    requires 0 < n <= |ops|
    ensures Count(t, ops[..n], fate)
         == Count(t, ops[..n - 1], fate) + (if Ends(Run(t, ops[..n - 1]), ops[n - 1]) == Some(fate) then 1 else 0)
  {
    assert ops[..n][..n - 1] == ops[..n - 1];
  }

  lemma {:induction false} OpenCounted(t: Table, ops: seq<Op>, n: nat)
    requires Unleased(t) && AllowedRun(t, ops) && n <= |ops|
    ensures |OpenGrants(t, ops, n)| == |Leased(Run(t, ops[..n]))|
  {
    if n == 0 {
      assert Leased(t) == {} && ops[..0] == [];
    } else {
      OpenCounted(t, ops, n - 1);
      RunSnoc(t, ops, n - 1);
      assert AllowedAt(t, ops, n - 1);
      LeasedStep(Run(t, ops[..n - 1]), ops[n - 1]);
      OpenSize(t, ops, n - 1);
    }
  }

  lemma OpenSize(t: Table, ops: seq<Op>, n: nat)
    requires Unleased(t) && AllowedRun(t, ops) && n < |ops|
    ensures |OpenGrants(t, ops, n + 1)| == |OpenGrants(t, ops, n)| + (if ops[n].Grant? then 1 else 0)
              - (if Ends(Run(t, ops[..n]), ops[n]).Some? then 1 else 0)
  {
    if EndsAt(t, ops, ops[n].stream, n) {
      var g := OpenEnded(t, ops, n);
      assert |OpenGrants(t, ops, n) - {g}| == |OpenGrants(t, ops, n)| - 1;
    } else {
      OpenKept(t, ops, n);
    }
  }

  lemma LeasedStep(t: Table, op: Op)
    requires Allowed(t, op)
    ensures |Leased(Apply(t, op))|
         == |Leased(t)| + (if op.Grant? then 1 else 0) - (if Ends(t, op).Some? then 1 else 0)
  {
    LeasedAfter(t, op);
    if op.stream in Leased(t) {
      assert Leased(t) + {op.stream} == Leased(t);
    }
  }

  function GrantIndices(ops: seq<Op>): set<int> {
    set g | 0 <= g < |ops| && ops[g].Grant?
  }

  lemma {:induction false} AllGrantsCounted(ops: seq<Op>)
    ensures |GrantIndices(ops)| == AllGrants(ops)
  {
    if ops != [] {
      var n := |ops| - 1;
      AllGrantsCounted(ops[..n]);
      assert GrantIndices(ops) == GrantIndices(ops[..n]) + (if ops[n].Grant? then {n} else {});
    }
  }

  // The grants fall apart into those still open and those closed by each fate.
  lemma GrantsPartition(t: Table, ops: seq<Op>)
    requires Unleased(t) && AllowedRun(t, ops)
    ensures GrantIndices(ops) == OpenGrants(t, ops, |ops|)
              + Closed(t, ops, |ops|, Acked) + Closed(t, ops, |ops|, Deferred)
              + Closed(t, ops, |ops|, Superseded) + Closed(t, ops, |ops|, Voided)
    ensures forall f, f' :: f != f' ==> Closed(t, ops, |ops|, f) !! Closed(t, ops, |ops|, f')
    ensures forall f :: Closed(t, ops, |ops|, f) !! OpenGrants(t, ops, |ops|)
  {
    var n := |ops|;
    forall g | g in GrantIndices(ops)
      ensures g in OpenGrants(t, ops, n) || exists f :: g in Closed(t, ops, n, f)
      ensures forall f, f' :: g in Closed(t, ops, n, f) && g in Closed(t, ops, n, f') ==> f == f'
      ensures forall f :: g in Closed(t, ops, n, f) ==> g !in OpenGrants(t, ops, n)
    {
      EveryGrantSettled(t, ops, g);
      if !Open(t, ops, g, n) {
        var j :| EndsFirst(t, ops, g, j);
        var fate := Ends(Run(t, ops[..j]), ops[j]).value;
        assert FateAt(t, ops, g, j, fate);
        assert g in Closed(t, ops, n, fate);
      }
    }
  }

  // So the totals add up: every lease ever granted is acked, deferred,
  // superseded, voided, held, or held by a blocked row.
  lemma GrantsConserved(t: Table, ops: seq<Op>)
    requires Unleased(t) && AllowedRun(t, ops)
    ensures AllGrants(ops)
         == Count(t, ops, Acked) + Count(t, ops, Deferred) + Count(t, ops, Superseded) + Count(t, ops, Voided)
            + |Held(Run(t, ops))| + |HeldBlocked(Run(t, ops))|
  {
    var n := |ops|;
    assert ops[..n] == ops;
    GrantsPartition(t, ops);
    AllGrantsCounted(ops);
    OpenCounted(t, ops, n);
    ClosedCounted(t, ops, n, Acked);
    ClosedCounted(t, ops, n, Deferred);
    ClosedCounted(t, ops, n, Superseded);
    ClosedCounted(t, ops, n, Voided);
    var t' := Run(t, ops);
    assert Leased(t') == Held(t') + HeldBlocked(t');
  }

  // ---------------------------------------------------------------- fencing

  // Some grant to this holder is still open.
  ghost predicate OpenTo(t: Table, ops: seq<Op>, s: string, holder: string) {
    exists g :: GrantTo(ops, g, s, holder) && Open(t, ops, g, |ops|)
  }

  predicate GrantTo(ops: seq<Op>, g: int, s: string, holder: string) {
    0 <= g < |ops| && ops[g].Grant? && ops[g].stream == s && ops[g].holder == holder
  }

  // A holder id owns a row exactly while a grant to it is open, whichever
  // claim that was.
  lemma HoldsExactly(t: Table, ops: seq<Op>, s: string, holder: string)
    requires Unleased(t) && AllowedRun(t, ops)
    ensures Holds(Run(t, ops), s, holder) <==> OpenTo(t, ops, s, holder)
  {
    assert ops[..|ops|] == ops;
    if Holds(Run(t, ops), s, holder) {
      var g := LeasedOpen(t, ops, |ops|, s);
      OpenCarries(t, ops, g, |ops|);
      assert GrantTo(ops, g, s, holder);
    }
    if OpenTo(t, ops, s, holder) {
      var g :| GrantTo(ops, g, s, holder) && Open(t, ops, g, |ops|);
      OpenCarries(t, ops, g, |ops|);
    }
  }

  // So fencing fails exactly there: an ack, however late, changes the table if
  // and only if some grant to its holder id is open, and a block if and only
  // if the row is not blocked already as well.
  lemma FencedExactly(t: Table, ops: seq<Op>, finalize: Op)
    requires Unleased(t) && AllowedRun(t, ops) && (finalize.Ack? || finalize.Block?)
    ensures var now := Run(t, ops);
            Apply(now, finalize) != now <==>
              && OpenTo(t, ops, finalize.stream, finalize.holder)
              && finalize.stream in now
              && (finalize.Block? ==> !now[finalize.stream].blocked)
  {
    HoldsExactly(t, ops, finalize.stream, finalize.holder);
    FinalizeChanges(Run(t, ops), finalize);
  }

  lemma FinalizeChanges(t: Table, finalize: Op)
    requires finalize.Ack? || finalize.Block?
    ensures Apply(t, finalize) != t <==>
              && Holds(t, finalize.stream, finalize.holder)
              && (finalize.Block? ==> !t[finalize.stream].blocked)
  {
    if finalize.stream in t {
      var s := finalize.stream;
      assert Apply(t, finalize)[s] == Step(t[s], finalize);
      if Step(t[s], finalize) == t[s] {
        assert Apply(t, finalize) == t;
      }
    }
  }
}
