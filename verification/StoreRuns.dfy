/** Calls on the store as runs: any sequence of them takes the subscription
    table where an allowed run of row steps takes it, so what is proved of runs
    -- fencing, conservation, the retry law -- holds of the store. */
module StoreRuns {
  import opened Seqs
  import opened SqliteSteps
  import opened SqliteStore
  import opened StreamFilters
  import Conservation
  import Cor = Correlator
  import Fairness
  import Paging
  import Selection = ClaimSelection
  import Sub = Subscriptions

  // A call with what it settled on: the rows a filter selected, and the
  // streams a claim picked.
  datatype Call =
    | Subscribe(inputs: seq<Subscription>)
    | Claim(lagging: nat, leading: nat, holder: string, lane: Option<string>, now: int, until: int,
            pick: Selection.Pick, leases: seq<Lease>)
    | Ack(leases: seq<Lease>)
    | Block(blocked: seq<BlockedLease>)
    | Defer(names: set<string>, due: int)
    | Reset(names: set<string>)
    | Unblock(names: set<string>)
    | Prioritize(names: set<string>, priority: int)

  ghost predicate Possible(t: Sub.Table, call: Call) {
    call.Claim? ==>
      && Selection.Direct(call.pick, Fairness.Candidates(t, call.now, call.lane), call.lagging, call.leading)
      && LeasesFor(t, call.leases, Fairness.Streams(Selection.Picked(call.pick)), call.holder)
  }

  function StepOf(call: Call): string -> Sub.Op
    requires call.Defer? || call.Reset? || call.Unblock? || call.Prioritize?
  {
    match call
    case Defer(_, due) => s => Sub.Defer(s, due)
    case Reset(_) => s => Sub.Reset(s)
    case Unblock(_) => s => Sub.Unblock(s)
    case Prioritize(_, priority) => s => Sub.Prioritize(s, priority)
  }

  // The table after a call, as the store's methods promise it.
  function After(t: Sub.Table, call: Call): Sub.Table {
    match call
    case Subscribe(inputs) => Sub.Run(t, Subscribes(inputs))
    case Claim(_, _, holder, _, now, until, pick, _) =>
      Fairness.GrantAll(t, Fairness.Streams(Selection.Picked(pick)), holder, now, until)
    case Ack(leases) => Sub.Run(t, Acks(leases))
    case Block(blocked) => Sub.Run(t, Blocks(blocked))
    case _ => OnRows(t, call.names, StepOf(call))
  }

  ghost function OpsOf(call: Call): seq<Sub.Op> {
    match call
    case Subscribe(inputs) => Subscribes(inputs)
    case Claim(_, _, _, _, now, until, _, leases) => Grants(leases, now, until)
    case Ack(leases) => Acks(leases)
    case Block(blocked) => Blocks(blocked)
    case _ => Each(Paging.Ordered(call.names), StepOf(call))
  }

  lemma NotGranting(t: Sub.Table, ops: seq<Sub.Op>)
    requires forall i :: 0 <= i < |ops| ==> !ops[i].Grant?
    ensures Sub.AllowedRun(t, ops)
  {
    forall i ensures Sub.AllowedAt(t, ops, i) {}
  }

  lemma ClaimCall(t: Sub.Table, call: Call)
    requires call.Claim? && Possible(t, call)
    ensures After(t, call) == Sub.Run(t, OpsOf(call)) && Sub.AllowedRun(t, OpsOf(call))
  {
    var picked := Fairness.Streams(Selection.Picked(call.pick));
    Selection.PickedWithinBudget(call.pick, Fairness.Candidates(t, call.now, call.lane), call.lagging, call.leading);
    LeasedStreams(t, call.leases, picked, call.holder);
    ClaimIsRun(t, call.leases, call.holder, call.now, call.until);
  }

  // One call is an allowed run of row steps.
  lemma CallIsRun(t: Sub.Table, call: Call)
    requires Possible(t, call)
    ensures After(t, call) == Sub.Run(t, OpsOf(call)) && Sub.AllowedRun(t, OpsOf(call))
  {
    if call.Claim? {
      ClaimCall(t, call);
    } else {
      NotGranting(t, OpsOf(call));
      if call.Defer? || call.Reset? || call.Unblock? || call.Prioritize? {
        OrderedNames(call.names);
        OnRowsIsRun(t, Paging.Ordered(call.names), StepOf(call));
      }
    }
  }

  lemma OrderedNames(names: set<string>)
    ensures var all := Paging.Ordered(names);
            Names(all) == names && forall i, j :: 0 <= i < j < |all| ==> all[i] != all[j]
  {
    var all := Paging.Ordered(names);
    Paging.OrderedSound(names);
    forall i, j | 0 <= i < j < |all| ensures all[i] != all[j] {
      Paging.LessTotal(all[i], all[i]);
    }
  }

  // ---------------------------------------------------------------- sequences of calls

  function AfterAll(t: Sub.Table, calls: seq<Call>): Sub.Table {
    if calls == [] then t else After(AfterAll(t, calls[..|calls| - 1]), calls[|calls| - 1])
  }

  ghost predicate PossibleAt(t: Sub.Table, calls: seq<Call>, i: int) {
    0 <= i < |calls| ==> Possible(AfterAll(t, calls[..i]), calls[i])
  }

  ghost predicate PossibleCalls(t: Sub.Table, calls: seq<Call>) {
    forall i :: PossibleAt(t, calls, i)
  }

  ghost function AllOps(calls: seq<Call>): seq<Sub.Op> {
    if calls == [] then [] else AllOps(calls[..|calls| - 1]) + OpsOf(calls[|calls| - 1])
  }

  lemma {:induction false} CallsAreRuns(t: Sub.Table, calls: seq<Call>)
    requires PossibleCalls(t, calls)
    ensures AfterAll(t, calls) == Sub.Run(t, AllOps(calls)) && Sub.AllowedRun(t, AllOps(calls))
  {
    if calls == [] {
      NotGranting(t, []);
    } else {
      var n := |calls| - 1;
      forall i ensures PossibleAt(t, calls[..n], i) {
        assert PossibleAt(t, calls, i);
        if 0 <= i < n {
          assert calls[..n][..i] == calls[..i];
        }
      }
      CallsAreRuns(t, calls[..n]);
      assert PossibleAt(t, calls, n);
      var before := AfterAll(t, calls[..n]);
      CallIsRun(before, calls[n]);
      Sub.AllowedAppend(t, AllOps(calls[..n]), OpsOf(calls[n]));
      Sub.RunAppend(t, AllOps(calls[..n]), OpsOf(calls[n]));
    }
  }

  // ---------------------------------------------------------------- the store

  datatype ByName =
    | DeferNames(names: seq<string>, due: int)
    | ResetNames(names: seq<string>)
    | UnblockNames(names: seq<string>)

  datatype ByFilter =
    | DeferWhere(f: StreamFilter, due: int)
    | ResetWhere(f: StreamFilter)
    | UnblockWhere(f: StreamFilter)
    | PrioritizeWhere(f: StreamFilter, priority: int)

  datatype Request =
    | DoSubscribe(inputs: seq<Subscription>, position: Option<int>, claimant: Option<Cor.Claimant>, now: int)
    | DoClaim(lagging: nat, leading: nat, holder: string, millis: int, lane: Option<string>, now: int, later: int)
    | DoAck(leases: seq<Lease>)
    | DoBlock(blocked: seq<BlockedLease>)
    | DoNames(change: ByName)
    | DoWhere(filtered: ByFilter)

  // Any request to the store is such a call; a refused one selects no row.
  method Perform(store: SqliteStore, request: Request) returns (ghost call: Call)
    requires Sub.Paired(store.streams) && Cor.UnderShared(store.correlated)
    modifies store`streams, store`correlated
    ensures Sub.Paired(store.streams) && Cor.UnderShared(store.correlated)
    ensures Possible(old(store.streams), call) && store.streams == After(old(store.streams), call)
  {
    hide Selection.Direct, LeasesFor;
    match request
    case DoSubscribe(inputs, position, claimant, now) =>
      var r := store.Subscribe(inputs, position, claimant, now);
      call := Subscribe(if r.Refused? then [] else inputs);
    case DoClaim(lagging, leading, holder, millis, lane, now, later) =>
      var leases;
      ghost var pick;
      leases, pick := store.Claim(lagging, leading, holder, millis, lane, now, later);
      call := Claim(lagging, leading, holder, lane, now, later + millis, pick, leases);
    case DoAck(leases) =>
      var acked := store.Ack(leases);
      call := Ack(leases);
    case DoBlock(blocked) =>
      var done := store.Block(blocked);
      call := Block(blocked);
    case DoNames(change) =>
      call := PerformNames(store, change);
    case DoWhere(filtered) =>
      call := PerformWhere(store, filtered);
  }

  method PerformNames(store: SqliteStore, change: ByName) returns (ghost call: Call)
    requires Sub.Paired(store.streams)
    modifies store`streams
    ensures Sub.Paired(store.streams)
    ensures !call.Claim? && store.streams == After(old(store.streams), call)
  {
    hide Only;
    match change
    case DeferNames(names, due) =>
      var n := store.Defer(names, due);
      call := Defer(Names(names), due);
    case ResetNames(names) =>
      var n := store.Reset(names);
      call := Reset(Names(names));
    case UnblockNames(names) =>
      var n := store.Unblock(names);
      call := Unblock(Names(names));
  }

  method PerformWhere(store: SqliteStore, filtered: ByFilter) returns (ghost call: Call)
    requires Sub.Paired(store.streams)
    modifies store`streams
    ensures Sub.Paired(store.streams)
    ensures !call.Claim? && store.streams == After(old(store.streams), call)
  {
    hide Only, Selects;
    ghost var t := store.streams;
    OnNone(t, s => Sub.Reset(s));
    match filtered
    case DeferWhere(f, due) =>
      var n := store.DeferWhere(f, due);
      call := if n.None? then Reset({}) else Defer(Selected(f, t), due);
    case ResetWhere(f) =>
      var n := store.ResetWhere(f);
      call := if n.None? then Reset({}) else Reset(Selected(f, t));
    case UnblockWhere(f) =>
      var n := store.UnblockWhere(f);
      call := if n.None? then Reset({}) else Unblock(Selected(f.(blocked := Some(true)), t));
    case PrioritizeWhere(f, priority) =>
      var n := store.Prioritize(f, priority);
      call := if n.None? then Reset({}) else Prioritize(Selected(f, t), priority);
  }

  method PerformAll(store: SqliteStore, requests: seq<Request>) returns (ghost calls: seq<Call>)
    requires Sub.Paired(store.streams) && Cor.UnderShared(store.correlated)
    modifies store`streams, store`correlated
    ensures Sub.Paired(store.streams) && Cor.UnderShared(store.correlated)
    ensures PossibleCalls(old(store.streams), calls) && store.streams == AfterAll(old(store.streams), calls)
    ensures store.streams == Sub.Run(old(store.streams), AllOps(calls))
    ensures Sub.AllowedRun(old(store.streams), AllOps(calls))
  {
    ghost var t := store.streams;
    calls := [];
    forall i ensures PossibleAt(t, [], i) {}
    for i := 0 to |requests|
      invariant Sub.Paired(store.streams) && Cor.UnderShared(store.correlated)
      invariant PossibleCalls(t, calls) && store.streams == AfterAll(t, calls)
    {
      ghost var call := Perform(store, requests[i]);
      CallsMore(t, calls, call);
      calls := calls + [call];
    }
    CallsAreRuns(t, calls);
  }

  lemma CallsMore(t: Sub.Table, calls: seq<Call>, call: Call)
    requires PossibleCalls(t, calls) && Possible(AfterAll(t, calls), call)
    ensures PossibleCalls(t, calls + [call])
    ensures AfterAll(t, calls + [call]) == After(AfterAll(t, calls), call)
  {
    var all := calls + [call];
    assert all[..|calls|] == calls;
    forall i ensures PossibleAt(t, all, i) {
      assert PossibleAt(t, calls, i);
      if 0 <= i < |calls| {
        assert all[..i] == calls[..i];
      }
    }
  }

  // Every lease the store ever handed out is still carried by its row, or was
  // ended once, properly; and the totals add up.
  lemma StoreConserves(t: Sub.Table, calls: seq<Call>, g: nat)
    requires Sub.Unleased(t) && PossibleCalls(t, calls)
    requires g < |AllOps(calls)| && AllOps(calls)[g].Grant?
    ensures var ops, end := AllOps(calls), AfterAll(t, calls);
            && (if Conservation.Open(t, ops, g, |ops|) then Conservation.Carries(end, ops[g])
                else exists j :: Conservation.EndsFirst(t, ops, g, j) && Conservation.EndedProperly(t, ops, g, j))
            && Conservation.AllGrants(ops)
               == Conservation.Count(t, ops, Conservation.Acked) + Conservation.Count(t, ops, Conservation.Deferred)
                  + Conservation.Count(t, ops, Conservation.Superseded) + Conservation.Count(t, ops, Conservation.Voided)
                  + |Conservation.Held(end)| + |Conservation.HeldBlocked(end)|
  {
    CallsAreRuns(t, calls);
    Conservation.EveryGrantSettled(t, AllOps(calls), g);
    Conservation.GrantsConserved(t, AllOps(calls));
  }
}
