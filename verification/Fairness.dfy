/** No starvation: the fairness reserve bounds how many claims can pass over an
    eligible stream, whatever the priorities. */
module Fairness {
  import opened Seqs
  import opened Subscriptions
  import opened ClaimSelection

  function Candidates(t: Table, now: int, lane: Option<string>): set<Candidate> {
    set s | s in t && Eligible(t[s], now, lane) :: Candidate(s, t[s].at, t[s].priority)
  }

  function Streams(cs: set<Candidate>): set<string> {
    set c | c in cs :: c.stream
  }

  function GrantAll(t: Table, streams: set<string>, holder: string, now: int, until: int): Table {
    map s | s in t :: if s in streams then Step(t[s], Grant(s, holder, now, until)) else t[s]
  }

  ghost predicate IsGrantAll(t: Table, after: Table, streams: set<string>, holder: string, now: int, until: int) {
    after == GrantAll(t, streams, holder, now, until)
  }

  // ---------------------------------------------------------------- sums

  ghost function Sum(keys: set<string>, f: string -> nat): nat {
    if keys == {} then 0
    else
      var k :| k in keys;
      f(k) + Sum(keys - {k}, f)
  }

  lemma {:induction false} SumSplit(keys: set<string>, f: string -> nat, y: string)
    requires y in keys
    ensures Sum(keys, f) == f(y) + Sum(keys - {y}, f)
  {
    var k :| k in keys && Sum(keys, f) == f(k) + Sum(keys - {k}, f);
    if k != y {
      SumSplit(keys - {k}, f, y);
      SumSplit(keys - {y}, f, k);
      assert keys - {k} - {y} == keys - {y} - {k};
    }
  }

  lemma {:induction false} SumMonotone(keys: set<string>, f: string -> nat, g: string -> nat)
    requires forall k :: k in keys ==> f(k) <= g(k)
    ensures Sum(keys, f) <= Sum(keys, g)
  {
    if keys != {} {
      var k :| k in keys;
      SumMonotone(keys - {k}, f, g);
      SumSplit(keys, f, k);
      SumSplit(keys, g, k);
    }
  }

  lemma SumStrict(keys: set<string>, f: string -> nat, g: string -> nat, y: string)
    requires forall k :: k in keys ==> f(k) <= g(k)
    requires y in keys && f(y) < g(y)
    ensures Sum(keys, f) < Sum(keys, g)
  {
    SumSplit(keys, f, y);
    SumSplit(keys, g, y);
    SumMonotone(keys - {y}, f, g);
  }

  // ---------------------------------------------------------------- turns

  datatype Turn =
    | Claim(pick: Pick, leading: nat, holder: string, now: int, until: int, lane: Option<string>)
    | Do(op: Op)

  // `owed` holds the streams granted and not acked since.
  datatype State = State(t: Table, owed: set<string>)

  predicate Finalizes(t: Table, op: Op) {
    op.Ack? && op.stream in t && Owned(t[op.stream], op.holder)
  }

  function Next(st: State, turn: Turn): State {
    match turn
    case Claim(pick, _, holder, now, until, _) =>
      State(GrantAll(st.t, Streams(Picked(pick)), holder, now, until), st.owed + Streams(Picked(pick)))
    case Do(op) =>
      State(Apply(st.t, op), if Finalizes(st.t, op) then st.owed - {op.stream} else st.owed)
  }

  // A claim follows the selection rule over rows that include `x`, and grants
  // no other stream whose last lease is still owed an ack. `x` itself may carry
  // the expired lease of a worker that is gone. Everything else may happen
  // between claims except a reset, a new subscription, an ack of `x`, or an ack
  // that does not move its watermark forward.
  ghost predicate FairTurn(st: State, turn: Turn, lagging: nat, x: string) {
    match turn
    case Claim(pick, leading, _, now, _, lane) =>
      && x in st.t && Eligible(st.t[x], now, lane)
      && Direct(pick, Candidates(st.t, now, lane), lagging, leading)
      && Streams(Picked(pick)) - {x} !! st.owed
    case Do(op) =>
      && !op.Grant? && !op.Reset? && op.stream in st.t
      && (Finalizes(st.t, op) ==> op.stream != x && st.t[op.stream].at < op.at)
  }

  function Run(st: State, turns: seq<Turn>): State {
    if turns == [] then st else Next(Run(st, turns[..|turns| - 1]), turns[|turns| - 1])
  }

  ghost predicate FairAt(st: State, turns: seq<Turn>, lagging: nat, x: string, i: int) {
    0 <= i < |turns| ==> FairTurn(Run(st, turns[..i]), turns[i], lagging, x)
  }

  ghost predicate FairRun(st: State, turns: seq<Turn>, lagging: nat, x: string) {
    forall i :: FairAt(st, turns, lagging, x, i)
  }

  predicate Serves(turn: Turn, x: string) {
    turn.Claim? && x in Streams(Picked(turn.pick))
  }

  function Claims(turns: seq<Turn>): nat {
    if turns == [] then 0
    else Claims(turns[..|turns| - 1]) + (if turns[|turns| - 1].Claim? then 1 else 0)
  }

  // How many claims stream `y` can still be served ahead of `x`.
  function Lead(st: State, x: string, y: string): nat {
    if x !in st.t || y !in st.t || st.t[y].at > st.t[x].at then 0
    else st.t[x].at - st.t[y].at + (if y in st.owed then 0 else 1)
  }

  ghost function Potential(st: State, x: string): nat {
    Sum(st.t.Keys - {x}, y => Lead(st, x, y))
  }

  // ---------------------------------------------------------------- proof

  // A claim leaves `x` alone and lowers the lead of every stream it picks.
  lemma ClaimLeads(st: State, turn: Turn, x: string, k: string)
    requires turn.Claim? && x in st.t && k in st.t && !Serves(turn, x)
    requires Streams(Picked(turn.pick)) - {x} !! st.owed
    ensures Lead(Next(st, turn), x, k) <= Lead(st, x, k)
    ensures k in Streams(Picked(turn.pick)) && st.t[k].at <= st.t[x].at ==>
              Lead(Next(st, turn), x, k) < Lead(st, x, k)
  {
  }

  lemma ClaimSpends(st: State, turn: Turn, lagging: nat, x: string)
    requires FairTurn(st, turn, lagging, x) && turn.Claim? && lagging >= 2 && !Serves(turn, x)
    ensures Potential(Next(st, turn), x) < Potential(st, x)
  {
    var st' := Next(st, turn);
    var cs := Candidates(st.t, turn.now, turn.lane);
    var cx := Candidate(x, st.t[x].at, st.t[x].priority);
    assert cx in cs;
    assert cx !in Picked(turn.pick);
    var y := MissedMeansBehind(turn.pick, cs, lagging, turn.leading, cx);
    assert y in Picked(turn.pick) && y.stream in Streams(Picked(turn.pick));
    assert st'.t.Keys == st.t.Keys;
    forall k | k in st.t ensures Lead(st', x, k) <= Lead(st, x, k) {
      ClaimLeads(st, turn, x, k);
    }
    ClaimLeads(st, turn, x, y.stream);
    SumStrict(st.t.Keys - {x}, k => Lead(st', x, k), k => Lead(st, x, k), y.stream);
  }

  lemma OtherKeeps(st: State, op: Op, lagging: nat, x: string)
    requires FairTurn(st, Do(op), lagging, x)
    requires x in st.t
    ensures var st' := Next(st, Do(op));
            && Potential(st', x) <= Potential(st, x)
            && x in st'.t && st'.t[x].at == st.t[x].at
  {
    var st' := Next(st, Do(op));
    assert st'.t.Keys == st.t.Keys;
    SumMonotone(st.t.Keys - {x}, k => Lead(st', x, k), k => Lead(st, x, k));
  }

  lemma {:induction false} Passed(st: State, turns: seq<Turn>, lagging: nat, x: string)
    requires lagging >= 2 && FairRun(st, turns, lagging, x)
    requires x in st.t
    requires forall i :: 0 <= i < |turns| ==> !Serves(turns[i], x)
    ensures Claims(turns) + Potential(Run(st, turns), x) <= Potential(st, x)
    ensures x in Run(st, turns).t && Run(st, turns).t[x].at == st.t[x].at
  {
    if turns != [] {
      var n := |turns| - 1;
      forall i ensures FairAt(st, turns[..n], lagging, x, i) {
        assert FairAt(st, turns, lagging, x, i);
        if 0 <= i < n {
          assert turns[..n][..i] == turns[..i];
        }
      }
      Passed(st, turns[..n], lagging, x);
      assert FairAt(st, turns, lagging, x, n);
      var before := Run(st, turns[..n]);
      if turns[n].Claim? {
        ClaimSpends(before, turns[n], lagging, x);
      } else {
        OtherKeeps(before, turns[n].op, lagging, x);
      }
    }
  }

  // Watermarks are enough to bound the wait: one claim for `x`, and for every
  // other stream one for each event id it is behind `x`, its own included.
  lemma BoundedWait(st: State, turns: seq<Turn>, lagging: nat, x: string)
    requires lagging >= 2 && FairRun(st, turns, lagging, x)
    requires x in st.t
    requires Claims(turns) >= 1 + Sum(st.t.Keys - {x}, y => Behind(st.t, x, y))
    ensures exists i :: 0 <= i < |turns| && Serves(turns[i], x)
  {
    if forall i :: 0 <= i < |turns| ==> !Serves(turns[i], x) {
      Passed(st, turns, lagging, x);
      SumMonotone(st.t.Keys - {x}, y => Lead(st, x, y), y => Behind(st.t, x, y));
    }
  }

  // `max(0, x.at - y.at + 1)`
  function Behind(t: Table, x: string, y: string): nat {
    if x !in t || y !in t || t[y].at > t[x].at then 0 else t[x].at - t[y].at + 1
  }
}
