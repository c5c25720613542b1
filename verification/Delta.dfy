/** `delta`: what `after` says changed relative to `before`, and when patching
    recorded deltas rebuilds the recorded states. */
module ActDelta {
  import opened Values
  import opened ActPatch

  function Delta(before: Value, after: Value): Value
    requires before.Obj? && after.Obj?
    decreases after
  {
    Obj(map k | k in after.fields
                && (|| k !in before.fields
                    || (&& after.fields[k] != before.fields[k]
                        && !(&& after.fields[k].Obj? && before.fields[k].Obj?
                             && Delta(before.fields[k], after.fields[k]) == EMPTY)))
        :: if k in before.fields && after.fields[k].Obj? && before.fields[k].Obj?
           then Delta(before.fields[k], after.fields[k])
           else after.fields[k])
  }

  // `Object.is`. On two plain objects it compares their references, so each
  // test may miss equal contents but never confuses different ones; on other
  // values it is exact.
  method Identical(a: Value, b: Value) returns (shared: bool)
    ensures shared ==> a == b
    ensures !a.Obj? && a == b ==> shared
  {
    if a.Obj? && a == b {
      shared := *;
    } else {
      shared := a == b;
    }
  }

  lemma DeltaShape(before: Value, after: Value)
    requires before.Obj? && after.Obj?
    ensures Delta(before, after).Obj? && Delta(before, after).fields.Keys <= after.fields.Keys
    ensures before == after ==> Delta(before, after) == EMPTY
  {
  }

  lemma DeltaAt(before: Value, after: Value, k: string)
    requires before.Obj? && after.Obj? && k in after.fields
    ensures var full, a := Delta(before, after).fields, after.fields[k];
            if k !in before.fields then
              k in full && full[k] == a
            else
              var b := before.fields[k];
              if a == b then k !in full
              else if a.Obj? && b.Obj? then
                if Delta(b, a) == EMPTY then k !in full else k in full && full[k] == Delta(b, a)
              else k in full && full[k] == a
  {
  }

  // The loop of the source. Its result does not depend on which equal objects
  // happen to share a reference.
  method Diff(before: Value, after: Value) returns (r: Value)
    requires before.Obj? && after.Obj?
    ensures r == Delta(before, after)
    decreases after
  {
    hide Delta;
    DeltaShape(before, after);
    var whole := Identical(before, after);
    if whole {
      return EMPTY;
    }
    var out: map<string, Value> := map[];
    var afterKeys := Keys(after.fields);
    ghost var full := Delta(before, after).fields;
    for i := 0 to |afterKeys|
      invariant forall k :: k in out <==> k in afterKeys[..i] && k in full
      invariant forall k :: k in out ==> out[k] == full[k]
    {
      var k := afterKeys[i];
      assert afterKeys[..i + 1] == afterKeys[..i] + [k];
      assert k in after.fields;
      DeltaAt(before, after, k);
      var a := after.fields[k];
      if k !in before.fields {
        out := out[k := a];
        continue;
      }
      var b := before.fields[k];
      var shared := Identical(a, b);
      if shared {
        continue;
      }
      if a.Obj? && b.Obj? {
        var sub := Diff(b, a);
        DeltaShape(b, a);
        if sub.fields != map[] {
          out := out[k := sub];
        } else {
          assert sub == EMPTY;
        }
        continue;
      }
      out := out[k := a];
    }
    assert afterKeys[..|afterKeys|] == afterKeys;
    assert out == full;
    r := Obj(out);
  }

  // Nothing is dropped silently, and an object never replaces a truthy value
  // that is not a plain object unless it overwrites all of it.
  predicate Faithful(before: Value, after: Value)
    requires before.Obj? && after.Obj?
    decreases after
  {
    && (forall k :: k in before.fields && k !in after.fields ==> Nullish(before.fields[k]))
    && (forall k :: k in before.fields && k in after.fields && after.fields[k].Obj?
                    && after.fields[k] != before.fields[k] ==>
          if before.fields[k].Obj? then
            Faithful(before.fields[k], after.fields[k])
          else
            Absorbs(before.fields[k], after.fields[k], true))
  }

  // The entry of the round trip under one key of `after`.
  lemma RoundTripField(before: Value, after: Value, k: string)
    requires before.Obj? && after.Obj? && k in after.fields
    ensures var r, b, a := Patch(before, Delta(before, after)).fields, Get(before.fields, k), after.fields[k];
            var v := Get(r, k);
            && Patch(before, Delta(before, after)).Obj?
            && (k in before.fields && a == b ==> v == a)
            && (k in before.fields && a != b && a.Obj? && b.Obj? ==> v == Patch(b, Delta(b, a)))
            && ((k !in before.fields || (a != b && !b.Obj?)) && a.Obj? ==> v == Patch(Base(b), a))
            && ((k !in before.fields || a != b) && !a.Obj? ==>
                  if Nullish(a) then k !in r else v == a)
  {
    var d := Delta(before, after);
    if d.fields != map[] {
      PatchedField(before, d, k);
    } else {
      assert k !in d.fields;
    }
  }

  lemma RoundTripOthers(before: Value, after: Value, k: string)
    requires before.Obj? && after.Obj? && k !in after.fields
    ensures Get(Patch(before, Delta(before, after)).fields, k) == Get(before.fields, k)
  {
    var d := Delta(before, after);
    if d.fields != map[] {
      PatchedField(before, d, k);
    }
  }

  // `r` and `after` agree under `k` up to null-valued keys.
  ghost predicate Match(r: Value, after: Value, k: string)
    requires r.Obj? && after.Obj?
  {
    if Nullish(Get(after.fields, k)) then
      Nullish(Get(r.fields, k))
    else
      !Nullish(Get(r.fields, k)) && Strip(r.fields[k]) == Strip(after.fields[k])
  }

  lemma MatchEverywhere(r: Value, after: Value)
    requires r.Obj? && after.Obj?
    ensures Strip(r) == Strip(after) <==> forall k :: k in r.fields || k in after.fields ==> Match(r, after, k)
  {
    if Strip(r) == Strip(after) {
      forall k | k in r.fields || k in after.fields ensures Match(r, after, k) {
        SameField(r, after, k);
      }
    }
    if forall k :: k in r.fields || k in after.fields ==> Match(r, after, k) {
      assert Strip(r).fields == Strip(after).fields;
    }
  }

  // The part of `Faithful` about one key.
  ghost predicate FaithfulAt(before: Value, after: Value, k: string)
    requires before.Obj? && after.Obj?
  {
    k in before.fields ==>
      if k !in after.fields then
        Nullish(before.fields[k])
      else if after.fields[k].Obj? && after.fields[k] != before.fields[k] then
        if before.fields[k].Obj? then Faithful(before.fields[k], after.fields[k])
        else Absorbs(before.fields[k], after.fields[k], true)
      else
        true
  }

  // The documented round trip, with the exact condition for it.
  lemma {:induction false} RoundTrip(before: Value, after: Value)
    requires before.Obj? && after.Obj?
    ensures Patch(before, Delta(before, after)).Obj?
    ensures Strip(Patch(before, Delta(before, after))) == Strip(after) <==> Faithful(before, after)
    decreases after
  {
    var r := Patch(before, Delta(before, after));
    assert r.Obj?;
    forall k
      ensures Match(r, after, k) <==> FaithfulAt(before, after, k)
    {
      if k !in after.fields {
        RoundTripOthers(before, after, k);
      } else {
        RoundTripField(before, after, k);
        var a, b := after.fields[k], Get(before.fields, k);
        if a.Obj? && b.Obj? && a != b {
          RoundTrip(b, a);
        } else if a.Obj? && a != b {
          AbsorbedUpToNull(b, a);
          EntryIsTruthy(before.fields, k, a);
        }
      }
    }
    MatchEverywhere(r, after);
    assert Faithful(before, after) <==> forall k :: FaithfulAt(before, after, k);
    forall k | k !in r.fields && k !in after.fields ensures Match(r, after, k) {}
  }

  // README and doc comment promise the round trip whenever the keys of
  // `after` include those of `before`. An empty object replacing an array of
  // one element is a counterexample: the array survives.
  lemma RoundTripFails()
    ensures var before := Obj(map["tags" := Opaque(1, map["0" := Bool(true)])]);
            var after := Obj(map["tags" := EMPTY]);
            && before.fields.Keys == after.fields.Keys
            && Patch(before, Delta(before, after)) == before
            && Strip(before) != Strip(after)
  {
    var before := Obj(map["tags" := Opaque(1, map["0" := Bool(true)])]);
    var after := Obj(map["tags" := EMPTY]);
    var d := Delta(before, after);
    assert d.fields == after.fields;
    assert Patch(before.fields["tags"], EMPTY) == before.fields["tags"];
    assert Patch(before, d).fields == before.fields;
    assert Strip(before).fields["tags"] != Strip(after).fields["tags"];
  }

  // ---------------------------------------------------------------- replay

  // Folding `patch` over the deltas recorded up to state `n`.
  function Replay(states: seq<Value>, n: nat): Value
    requires n < |states| && forall s :: s in states ==> s.Obj?
  {
    if n == 0 then states[0]
    else Patch(Replay(states, n - 1), Delta(states[n - 1], states[n]))
  }

  ghost predicate Rebuilt(states: seq<Value>, n: nat)
    requires n < |states| && forall s :: s in states ==> s.Obj?
  {
    Strip(Replay(states, n)) == Strip(states[n])
  }

  ghost predicate StepFaithful(states: seq<Value>, i: nat)
    requires 0 < i < |states| && forall s :: s in states ==> s.Obj?
  {
    Faithful(states[i - 1], states[i])
  }

  // Event-sourced replay: recorded deltas rebuild every recorded state, up to
  // null-valued keys, exactly when each recorded step is faithful.
  lemma {:induction false} ReplayRebuilds(states: seq<Value>, n: nat)
    requires n < |states| && forall s :: s in states ==> s.Obj?
    ensures (forall m :: 0 <= m <= n ==> Rebuilt(states, m))
       <==> (forall i :: 0 < i <= n ==> StepFaithful(states, i))
  {
    if n > 0 {
      ReplayRebuilds(states, n - 1);
      if Rebuilt(states, n - 1) {
        var step := Delta(states[n - 1], states[n]);
        PatchCongruence(Replay(states, n - 1), states[n - 1], step);
        RoundTrip(states[n - 1], states[n]);
        assert Rebuilt(states, n) <==> StepFaithful(states, n);
      }
    }
  }
}
