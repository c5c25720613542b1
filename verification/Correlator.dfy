/** The correlation checkpoint and its lease, per correlator key, with the
    shared row under the empty key. */
module Correlator {
  import opened Seqs

  datatype Checkpoint = Checkpoint(at: int, leasedBy: Option<string>, leasedUntil: Option<int>)

  type Checkpoints = map<string, Checkpoint>

  const SHARED := ""

  datatype Claimant = Claimant(key: string, holder: string, millis: int)

  // One `subscribe` call: who asks for the lease, if anyone does, and the
  // position it reports, if it reports one.
  datatype Call = Call(claimant: Option<Claimant>, position: Option<int>, now: int)

  function Max(a: int, b: int): int {
    if a < b then b else a
  }

  function Reported(call: Call): int {
    if call.position.Some? then call.position.value else -1
  }

  function Until(c: Claimant, now: int): Option<int> {
    if c.millis > 0 then Some(now + c.millis) else None
  }

  // The `WHERE` of the conditional upsert.
  predicate Takeable(row: Checkpoint, holder: string, now: int) {
    || row.leasedUntil.None?
    || row.leasedUntil.value < now
    || row.leasedBy == Some(holder)
  }

  predicate Takes(t: Checkpoints, c: Claimant, now: int) {
    c.key in t ==> Takeable(t[c.key], c.holder, now)
  }

  function Raise(t: Checkpoints, key: string, position: Option<int>): Checkpoints {
    if position.Some? && key in t then t[key := t[key].(at := Max(t[key].at, position.value))] else t
  }

  function Upsert(t: Checkpoints, call: Call, c: Claimant): Checkpoints {
    if c.key !in t then
      var shared := if SHARED in t then t[SHARED].at else -1;
      t[c.key := Checkpoint(Max(Reported(call), shared), Some(c.holder), Until(c, call.now))]
    else if Takes(t, c, call.now) then
      t[c.key := Checkpoint(Max(t[c.key].at, Reported(call)), Some(c.holder), Until(c, call.now))]
    else
      Raise(t, c.key, call.position)
  }

  function Apply(t: Checkpoints, call: Call): Checkpoints {
    Raise(if call.claimant.Some? then Upsert(t, call, call.claimant.value) else t, SHARED, call.position)
  }

  // ---------------------------------------------------------------- runs

  // `held` records, per key and holder, the expiry of the last lease taken,
  // or nothing once it was given back. No call consults it.
  datatype State = State(clock: int, t: Checkpoints, held: map<(string, string), int>)

  const SEEDED: Checkpoints := map[SHARED := Checkpoint(-1, None, None)]

  predicate Enabled(st: State, call: Call) {
    st.clock <= call.now
  }

  function Next(st: State, call: Call): State {
    State(call.now, Apply(st.t, call),
          if call.claimant.Some? && Takes(st.t, call.claimant.value, call.now) then
            var c := call.claimant.value;
            if c.millis > 0 then st.held[(c.key, c.holder) := call.now + c.millis]
            else st.held - {(c.key, c.holder)}
          else st.held)
  }

  function Run(st: State, calls: seq<Call>): State {
    if calls == [] then st else Next(Run(st, calls[..|calls| - 1]), calls[|calls| - 1])
  }

  // The clock never runs backwards.
  predicate Ordered(clock: int, calls: seq<Call>) {
    calls != [] ==>
      var n := |calls| - 1;
      Ordered(clock, calls[..n]) && LastNow(clock, calls[..n]) <= calls[n].now
  }

  function LastNow(clock: int, calls: seq<Call>): int {
    if calls == [] then clock else calls[|calls| - 1].now
  }

  // ---------------------------------------------------------------- invariant

  // A lease that has not expired is the one the row carries.
  predicate Backed(st: State, key: string, holder: string) {
    (key, holder) in st.held && st.clock <= st.held[(key, holder)] ==>
      key in st.t && st.t[key].leasedBy == Some(holder) && st.t[key].leasedUntil == Some(st.held[(key, holder)])
  }

  // A lease a row carries was taken by its holder.
  predicate Recorded(st: State, key: string) {
    key in st.t && st.t[key].leasedUntil.Some? ==>
      && st.t[key].leasedBy.Some?
      && (key, st.t[key].leasedBy.value) in st.held
      && st.held[(key, st.t[key].leasedBy.value)] == st.t[key].leasedUntil.value
  }

  predicate UnderShared(t: Checkpoints) {
    SHARED in t && t[SHARED].at >= -1 && forall k :: k in t ==> t[k].at <= t[SHARED].at
  }

  ghost predicate Inv(st: State) {
    && UnderShared(st.t)
    && (forall k, h :: Backed(st, k, h))
    && (forall k :: Recorded(st, k))
  }

  lemma NextKeeps(st: State, call: Call)
    requires Inv(st) && Enabled(st, call)
    ensures Inv(Next(st, call))
  {
    var st' := Next(st, call);
    forall k, h ensures Backed(st', k, h) {
      assert Backed(st, k, h) && Recorded(st, k);
    }
    forall k ensures Recorded(st', k) {
      assert Recorded(st, k);
    }
  }

  lemma {:induction false} RunKeeps(clock: int, calls: seq<Call>)
    requires Ordered(clock, calls)
    ensures var st := Run(State(clock, SEEDED, map[]), calls);
            && Inv(st)
            && st.clock == LastNow(clock, calls)
  {
    if calls != [] {
      var n := |calls| - 1;
      RunKeeps(clock, calls[..n]);
      NextKeeps(Run(State(clock, SEEDED, map[]), calls[..n]), calls[n]);
    }
  }

  // ---------------------------------------------------------------- theorems

  predicate Live(st: State, key: string, holder: string, now: int) {
    (key, holder) in st.held && now <= st.held[(key, holder)]
  }

  // After any run of calls, a call takes the lease of its key exactly when no
  // other holder's lease on that key is live.
  lemma LeaseTakenExactly(clock: int, calls: seq<Call>, call: Call)
    requires Ordered(clock, calls + [call]) && call.claimant.Some?
    ensures var st := Run(State(clock, SEEDED, map[]), calls);
            var c := call.claimant.value;
            Takes(st.t, c, call.now) <==> !exists h :: h != c.holder && Live(st, c.key, h, call.now)
  {
    assert (calls + [call])[..|calls|] == calls;
    RunKeeps(clock, calls);
    var st := Run(State(clock, SEEDED, map[]), calls);
    var c := call.claimant.value;
    if Takes(st.t, c, call.now) {
      forall h | h != c.holder ensures !Live(st, c.key, h, call.now) {
        assert Backed(st, c.key, h);
      }
    } else {
      assert Recorded(st, c.key);
      assert Live(st, c.key, st.t[c.key].leasedBy.value, call.now);
    }
  }

  // Per key at most one holder has a live lease.
  lemma LeaseExclusive(clock: int, calls: seq<Call>, key: string, a: string, b: string, now: int)
    requires Ordered(clock, calls)
    ensures var st := Run(State(clock, SEEDED, map[]), calls);
            st.clock <= now && Live(st, key, a, now) && Live(st, key, b, now) ==> a == b
  {
    RunKeeps(clock, calls);
    var st := Run(State(clock, SEEDED, map[]), calls);
    assert Backed(st, key, a) && Backed(st, key, b);
  }

  lemma ApplyRises(t: Checkpoints, call: Call, k: string)
    requires UnderShared(t)
    ensures var t' := Apply(t, call);
            && UnderShared(t')
            && (k in t ==> k in t' && t[k].at <= t'[k].at)
            && (call.position.Some? ==> call.position.value <= t'[SHARED].at)
            && (call.claimant.Some? ==>
                  var key := call.claimant.value.key;
                  && key in t'
                  && (call.position.Some? ==> call.position.value <= t'[key].at)
                  && (key !in t ==> t[SHARED].at <= t'[key].at)
                  && (k != key && k != SHARED && k in t ==> t'[k] == t[k]))
  {
  }

  // One more call: every position only rises and stays at or below the shared
  // one, other keys are untouched, and winner and loser alike end with a
  // stored position at or past the one they reported.
  lemma PositionsOnlyRise(clock: int, calls: seq<Call>, call: Call, k: string)
    requires Ordered(clock, calls)
    ensures var t := Run(State(clock, SEEDED, map[]), calls).t;
            var t' := Apply(t, call);
            && UnderShared(t) && UnderShared(t')
            && (k in t ==> k in t' && t[k].at <= t'[k].at)
            && (call.position.Some? ==> call.position.value <= t'[SHARED].at)
            && (call.claimant.Some? ==>
                  var key := call.claimant.value.key;
                  && key in t'
                  && (call.position.Some? ==> call.position.value <= t'[key].at)
                  && (key !in t ==> t[SHARED].at <= t'[key].at)
                  && (k != key && k != SHARED && k in t ==> t'[k] == t[k]))
  {
    RunKeeps(clock, calls);
    ApplyRises(Run(State(clock, SEEDED, map[]), calls).t, call, k);
  }

  // ---------------------------------------------------------------- one call, column by column

  // A new key starts from the shared position or the reported one, whichever
  // is higher. An existing key goes to the reported position if that is higher,
  // whether or not its lease is taken; the lease goes to the caller only if it
  // is taken. The shared row rises to the reported position.
  lemma CallMeans(t: Checkpoints, call: Call)
    requires SHARED in t && call.claimant.Some? && call.claimant.value.key != SHARED
    requires t[SHARED].at >= -1
    ensures var t', c := Apply(t, call), call.claimant.value;
            var said := if call.position.Some? && call.position.value >= -1 then call.position.value else -1;
            && t'.Keys == t.Keys + {c.key}
            && (forall k :: k in t && k != c.key && k != SHARED ==> t'[k] == t[k])
            && t'[SHARED].leasedBy == t[SHARED].leasedBy && t'[SHARED].leasedUntil == t[SHARED].leasedUntil
            && t'[SHARED].at == (if said > t[SHARED].at then said else t[SHARED].at)
            && (c.key !in t ==> t'[c.key].at == if said > t[SHARED].at then said else t[SHARED].at)
            && (c.key in t && t[c.key].at >= -1 ==> t'[c.key].at == if said > t[c.key].at then said else t[c.key].at)
            && var taken := c.key !in t || t[c.key].leasedUntil.None? || t[c.key].leasedUntil.value < call.now
                            || t[c.key].leasedBy == Some(c.holder);
               if taken then
                 && t'[c.key].leasedBy == Some(c.holder)
                 && t'[c.key].leasedUntil == (if c.millis > 0 then Some(call.now + c.millis) else None)
               else t'[c.key].leasedBy == t[c.key].leasedBy && t'[c.key].leasedUntil == t[c.key].leasedUntil
  {
  }
}
