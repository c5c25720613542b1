/** `patch`: an immutable deep merge whose null-valued entries delete. */
module ActPatch {
  import opened Values

  // `original_value || {}`
  function Base(v: Value): Value {
    if Falsy(v) then EMPTY else v
  }

  function Get(m: map<string, Value>, k: string): Value {
    if k in m then m[k] else Undefined
  }

  function Patch(original: Value, patches: Value): Value
    requires patches.Obj? || Nullish(patches)
    decreases patches
  {
    if Nullish(patches) || patches.fields == map[] then
      original
    else
      var own := Own(original);
      Obj(map k | k in own.Keys + patches.fields.Keys && !(k in patches.fields && Nullish(patches.fields[k]))
          :: if k !in patches.fields then own[k]
             else if patches.fields[k].Obj? then Patch(Base(Get(own, k)), patches.fields[k])
             else patches.fields[k])
  }

  // What a non-empty patch leaves under one key.
  lemma PatchedField(original: Value, p: Value, k: string)
    requires p.Obj? && p.fields != map[]
    ensures var r := Patch(original, p);
            && r.Obj?
            && (k in r.fields <==> if k in p.fields then !Nullish(p.fields[k]) else k in Own(original))
            && (k in r.fields ==>
                  r.fields[k] ==
                    if k !in p.fields then Own(original)[k]
                    else if p.fields[k].Obj? then Patch(Base(Get(Own(original), k)), p.fields[k])
                    else p.fields[k])
  {
  }

  // The merging rules by kind of value: undefined and null delete, primitives
  // and values that are not plain objects replace, plain objects merge into
  // what was there or, in place of a falsy value, into nothing.
  lemma RulesByKind(original: Value, p: Value, k: string)
    requires p.Obj? && k in p.fields
    ensures var r, v, own := Patch(original, p), p.fields[k], Own(original);
            && r.Obj?
            && (v == Undefined || v == Null ==> k !in r.fields)
            && (v.Bool? || v.Num? || v.Str? || v.Opaque? ==> k in r.fields && r.fields[k] == v)
            && var falsy := {Undefined, Null, Bool(false), Str(""), Num(NaN), Num(NegativeZero), Num(Finite(0.0))};
               var target := if k !in own || own[k] in falsy then EMPTY else own[k];
               (v.Obj? ==> k in r.fields && r.fields[k] == Patch(target, v))
  {
  }

  // What is not patched stays: the fields of an object, the own properties of
  // an array or the like, the characters of a string; other values have none.
  lemma LeftoversSurvive(original: Value, p: Value, k: string)
    requires p.Obj? && p.fields != map[] && k !in p.fields
    ensures var r := Patch(original, p);
            && r.Obj?
            && match original
               case Obj(fields) => (k in r.fields <==> k in fields) && (k in fields ==> r.fields[k] == fields[k])
               case Opaque(_, own) => (k in r.fields <==> k in own) && (k in own ==> r.fields[k] == own[k])
               case Str(s) => (k in r.fields <==> exists i :: IndexOf(s, 0, i, k))
                              && forall i :: IndexOf(s, 0, i, k) ==> k in r.fields && r.fields[k] == Str([s[i]])
               case _ => k !in r.fields
  {
    if original.Str? {
      CharactersExactly(original.s, 0, k);
    }
  }

  // One patched entry: a plain object merges into what was there, anything
  // else replaces it.
  function Entry(own: map<string, Value>, k: string, p: Value): Value {
    if p.Obj? then Patch(Base(Get(own, k)), p) else p
  }

  const SMALL := 16

  // The starting copy: a spread for at most sixteen keys, above that a pass
  // that skips the patched ones.
  method Unpatched(own: map<string, Value>, patched: map<string, Value>) returns (copy: map<string, Value>)
    ensures copy - patched.Keys == own - patched.Keys
  {
    var origKeys := Keys(own);
    if |origKeys| <= SMALL {
      return own;
    }
    copy := map[];
    for i := 0 to |origKeys|
      invariant forall k :: k in copy <==> k in origKeys[..i] && k !in patched
      invariant forall k :: k in copy ==> k in own && copy[k] == own[k]
    {
      var key := origKeys[i];
      assert origKeys[..i + 1] == origKeys[..i] + [key];
      if key !in patched {
        copy := copy[key := own[key]];
      }
    }
    assert origKeys[..|origKeys|] == origKeys;
  }

  // `copy` once the keys in `done` have been patched.
  ghost predicate Progress(copy: map<string, Value>, own: map<string, Value>, p: map<string, Value>, done: seq<string>) {
    && copy - p.Keys == own - p.Keys
    && forall k :: k in done && k in p ==>
         if Nullish(p[k]) then k !in copy else k in copy && copy[k] == Entry(own, k, p[k])
  }

  method Merge(original: Value, patches: Value) returns (r: Value)
    requires patches.Obj? || Nullish(patches)
    ensures r == Patch(original, patches)
    decreases patches
  {
    if Nullish(patches) {
      return original;
    }
    var p := patches.fields;
    var patchKeys := Keys(p);
    if |patchKeys| == 0 {
      return original;
    }
    var own := Own(original);
    var copy := Unpatched(own, p);
    for i := 0 to |patchKeys|
      invariant Progress(copy, own, p, patchKeys[..i])
    {
      var key := patchKeys[i];
      assert key in p;
      ghost var before := copy;
      if Nullish(p[key]) {
        copy := copy - {key};
      } else if !p[key].Obj? {
        copy := copy[key := p[key]];
      } else {
        var merged := Merge(Base(Get(own, key)), p[key]);
        copy := copy[key := merged];
      }
      ProgressStep(before, copy, own, p, patchKeys[..i], key);
      assert patchKeys[..i + 1] == patchKeys[..i] + [key];
    }
    Finished(original, patches, copy, patchKeys);
    r := Obj(copy);
  }

  lemma ProgressStep(before: map<string, Value>, copy: map<string, Value>, own: map<string, Value>,
                     p: map<string, Value>, done: seq<string>, key: string)
    requires Progress(before, own, p, done) && key in p
    requires copy == if Nullish(p[key]) then before - {key} else before[key := Entry(own, key, p[key])]
    ensures Progress(copy, own, p, done + [key])
  {
    assert copy - p.Keys == before - p.Keys;
  }

  lemma Finished(original: Value, patches: Value, copy: map<string, Value>, done: seq<string>)
    requires patches.Obj? && patches.fields != map[]
    requires Progress(copy, Own(original), patches.fields, done)
    requires forall k :: k in patches.fields ==> k in done
    ensures Patch(original, patches) == Obj(copy)
  {
    var own, r := Own(original), Patch(original, patches).fields;
    forall k ensures (k in copy <==> k in r) && (k in copy ==> copy[k] == r[k]) {
      PatchedField(original, patches, k);
      if k !in patches.fields {
        assert k in copy - patches.fields.Keys <==> k in own - patches.fields.Keys;
        if k in copy {
          assert (copy - patches.fields.Keys)[k] == (own - patches.fields.Keys)[k];
        }
      }
    }
    assert r == copy;
  }

  // ---------------------------------------------------------------- idempotence

  lemma {:induction false} Idempotent(original: Value, patches: Value)
    requires patches.Obj? || Nullish(patches)
    ensures Patch(Patch(original, patches), patches) == Patch(original, patches)
    decreases patches
  {
    if patches.Obj? && patches.fields != map[] {
      var once := Patch(original, patches);
      forall k | k in patches.fields && patches.fields[k].Obj?
        ensures Patch(Base(Get(once.fields, k)), patches.fields[k]) == once.fields[k]
      {
        var before := Base(Get(Own(original), k));
        Idempotent(before, patches.fields[k]);
      }
      assert Patch(once, patches).fields == once.fields;
    }
  }

  // ---------------------------------------------------------------- RFC 7396

  // MergePatch of RFC 7396, section 2. JSON has no `undefined`; here it reads
  // as null, which is how `patch` documents it.
  function MergePatch(target: Value, p: Value): Value
    decreases p
  {
    if !p.Obj? then
      p
    else
      var t := if target.Obj? then target.fields else map[];
      Obj(map k | k in t.Keys + p.fields.Keys && !(k in p.fields && Nullish(p.fields[k]))
          :: if k in p.fields then MergePatch(Get(t, k), p.fields[k]) else t[k])
  }

  // Patching `v` gives what patching an empty object gives. A truthy value
  // that is not a plain object is spread, so its own properties have to be
  // overwritten; with `modNull` a null-valued leftover is tolerated.
  predicate Absorbs(v: Value, p: Value, modNull: bool)
    requires p.Obj?
    decreases p
  {
    || Falsy(v)
    || (&& (v.Obj? || p.fields != map[])
        && forall k :: k in Own(v) ==>
             if k in p.fields then
               p.fields[k].Obj? ==> Absorbs(Own(v)[k], p.fields[k], modNull)
             else
               modNull && Nullish(Own(v)[k]))
  }

  lemma {:induction false} PatchOnEmpty(v: Value, p: Value)
    requires p.Obj? && Falsy(v)
    ensures Patch(Base(v), p) == MergePatch(EMPTY, p) == Strip(p)
    decreases p
  {
    forall k | k in p.fields && p.fields[k].Obj?
      ensures Patch(EMPTY, p.fields[k]) == MergePatch(Undefined, p.fields[k]) == Strip(p.fields[k])
    {
      PatchOnEmpty(Undefined, p.fields[k]);
      assert MergePatch(Undefined, p.fields[k]) == MergePatch(EMPTY, p.fields[k]);
    }
    assert Patch(EMPTY, p).fields == Strip(p).fields;
    assert MergePatch(EMPTY, p).fields == Strip(p).fields;
  }

  lemma {:induction false} AbsorbedExactly(v: Value, p: Value)
    requires p.Obj?
    ensures Patch(Base(v), p) == MergePatch(EMPTY, p) <==> Absorbs(v, p, false)
    decreases p
  {
    if Falsy(v) {
      PatchOnEmpty(v, p);
    } else if p.fields == map[] {
      assert MergePatch(EMPTY, p) == EMPTY;
    } else {
      var own := Own(v);
      forall k | k in own && k in p.fields && p.fields[k].Obj?
        ensures Patch(Base(Get(own, k)), p.fields[k]) == MergePatch(Undefined, p.fields[k])
           <==> Absorbs(own[k], p.fields[k], false)
      {
        AbsorbedExactly(own[k], p.fields[k]);
        assert MergePatch(Undefined, p.fields[k]) == MergePatch(EMPTY, p.fields[k]);
      }
      forall k | k !in own && k in p.fields && p.fields[k].Obj?
        ensures Patch(Base(Get(own, k)), p.fields[k]) == MergePatch(Undefined, p.fields[k])
      {
        PatchOnEmpty(Undefined, p.fields[k]);
        assert MergePatch(Undefined, p.fields[k]) == MergePatch(EMPTY, p.fields[k]);
      }
      var l, r := Patch(v, p).fields, MergePatch(EMPTY, p).fields;
      if Absorbs(v, p, false) {
        forall k ensures (k in l <==> k in r) && (k in l ==> l[k] == r[k]) {
          if k in p.fields {
            assert Get(EMPTY.fields, k) == Undefined;
            assert !p.fields[k].Obj? ==> MergePatch(Undefined, p.fields[k]) == p.fields[k];
          }
        }
        assert l == r;
      } else {
        var k :| k in own && !(k in p.fields && (p.fields[k].Obj? ==> Absorbs(own[k], p.fields[k], false)));
        if k in p.fields {
          assert l[k] == Patch(Base(Get(own, k)), p.fields[k]);
          assert r[k] == MergePatch(Undefined, p.fields[k]);
        } else {
          assert k in l && k !in r;
        }
      }
    }
  }

  // Every object-valued entry meets something absent, falsy or plain, or a
  // value it overwrites completely.
  predicate Mergeable(o: Value, p: Value)
    requires o.Obj? && p.Obj?
    decreases p
  {
    forall k :: k in p.fields && k in o.fields && p.fields[k].Obj? ==>
      if o.fields[k].Obj? then
        Mergeable(o.fields[k], p.fields[k])
      else
        Absorbs(o.fields[k], p.fields[k], false)
  }

  lemma {:induction false} AgreesWithMergePatch(o: Value, p: Value)
    requires o.Obj? && p.Obj?
    ensures Patch(o, p) == MergePatch(o, p) <==> Mergeable(o, p)
    decreases p
  {
    if p.fields == map[] {
      assert MergePatch(o, p).fields == o.fields;
    } else {
      forall k | k in p.fields && p.fields[k].Obj?
        ensures Patch(Base(Get(o.fields, k)), p.fields[k]) == MergePatch(Get(o.fields, k), p.fields[k])
           <==> (k !in o.fields
                 || if o.fields[k].Obj? then Mergeable(o.fields[k], p.fields[k])
                    else Absorbs(o.fields[k], p.fields[k], false))
      {
        var v := Get(o.fields, k);
        if v.Obj? {
          AgreesWithMergePatch(v, p.fields[k]);
        } else {
          AbsorbedExactly(v, p.fields[k]);
          assert MergePatch(v, p.fields[k]) == MergePatch(EMPTY, p.fields[k]);
        }
      }
      var l, r := Patch(o, p).fields, MergePatch(o, p).fields;
      if Mergeable(o, p) {
        forall k ensures (k in l <==> k in r) && (k in l ==> l[k] == r[k]) {
          if k in p.fields {
            assert !p.fields[k].Obj? ==> MergePatch(Get(o.fields, k), p.fields[k]) == p.fields[k];
          }
        }
        assert l == r;
      } else {
        var k :| k in p.fields && k in o.fields && p.fields[k].Obj?
          && !(if o.fields[k].Obj? then Mergeable(o.fields[k], p.fields[k])
               else Absorbs(o.fields[k], p.fields[k], false));
        assert l[k] == Patch(Base(Get(o.fields, k)), p.fields[k]);
        assert r[k] == MergePatch(Get(o.fields, k), p.fields[k]);
      }
    }
  }

  // An empty object patched over a number leaves the number; RFC 7396 would
  // leave an empty object.
  lemma MergePatchDiffers()
    ensures var o := Obj(map["a" := Num(Finite(5.0))]);
            var p := Obj(map["a" := EMPTY]);
            Patch(o, p) == o && MergePatch(o, p) == p && o != p
  {
    var o := Obj(map["a" := Num(Finite(5.0))]);
    var p := Obj(map["a" := EMPTY]);
    assert Patch(o.fields["a"], EMPTY) == o.fields["a"];
    assert Patch(o, p).fields == o.fields;
    assert MergePatch(o.fields["a"], EMPTY).fields == map[];
    assert MergePatch(o, p).fields == p.fields;
  }

  // ---------------------------------------------------------------- null keys

  lemma {:induction false} AbsorbedUpToNull(v: Value, p: Value)
    requires p.Obj?
    ensures Strip(Patch(Base(v), p)) == Strip(p) <==> Absorbs(v, p, true)
    decreases p
  {
    if Falsy(v) {
      PatchOnEmpty(v, p);
      StripTwice(p);
    } else if p.fields == map[] {
      assert Strip(p).fields == map[];
      if v.Obj? {
        if k :| k in v.fields && !Nullish(v.fields[k]) {
          assert k in Strip(v).fields;
        } else {
          assert Strip(v).fields == map[];
        }
      }
    } else {
      var own := Own(v);
      forall k | k in p.fields && p.fields[k].Obj?
        ensures Strip(Patch(Base(Get(own, k)), p.fields[k])) == Strip(p.fields[k])
           <==> (k !in own || Absorbs(own[k], p.fields[k], true))
      {
        AbsorbedUpToNull(Get(own, k), p.fields[k]);
      }
      var l, r := Strip(Patch(v, p)).fields, Strip(p).fields;
      if Absorbs(v, p, true) {
        forall k ensures (k in l <==> k in r) && (k in l ==> l[k] == r[k]) {
          if k in p.fields && p.fields[k].Obj? {
            EntryIsTruthy(own, k, p.fields[k]);
          }
        }
        assert l == r;
      } else {
        var k :| k in own && !(if k in p.fields then p.fields[k].Obj? ==> Absorbs(own[k], p.fields[k], true)
                               else Nullish(own[k]));
        if k in p.fields {
          EntryIsTruthy(own, k, p.fields[k]);
          assert l[k] == Strip(Patch(Base(Get(own, k)), p.fields[k]));
          assert r[k] == Strip(p.fields[k]);
        } else {
          assert k in l && k !in r;
        }
      }
    }
  }

  lemma EntryIsTruthy(own: map<string, Value>, k: string, p: Value)
    requires p.Obj?
    ensures !Falsy(Patch(Base(Get(own, k)), p))
  {
  }

  // Patching respects equality up to null-valued keys.
  lemma {:induction false} PatchCongruence(x: Value, y: Value, p: Value)
    requires Strip(x) == Strip(y)
    requires p.Obj?
    ensures Strip(Patch(x, p)) == Strip(Patch(y, p))
    decreases p
  {
    if !x.Obj? {
      assert x == y;
    } else if p.fields != map[] {
      assert y.Obj?;
      forall k | k in p.fields && p.fields[k].Obj?
        ensures Strip(Patch(Base(Get(x.fields, k)), p.fields[k])) == Strip(Patch(Base(Get(y.fields, k)), p.fields[k]))
      {
        SameBase(x, y, k);
        PatchCongruence(Base(Get(x.fields, k)), Base(Get(y.fields, k)), p.fields[k]);
      }
      var l, r := Patch(x, p), Patch(y, p);
      forall k ensures (k in Strip(l).fields <==> k in Strip(r).fields)
                    && (k in Strip(l).fields ==> Strip(l).fields[k] == Strip(r).fields[k])
      {
        if k in p.fields {
          if p.fields[k].Obj? {
            EntryIsTruthy(x.fields, k, p.fields[k]);
            EntryIsTruthy(y.fields, k, p.fields[k]);
          }
        } else {
          SameField(x, y, k);
        }
      }
      assert Strip(l).fields == Strip(r).fields;
    }
  }

  lemma SameField(x: Value, y: Value, k: string)
    requires x.Obj? && y.Obj? && Strip(x) == Strip(y)
    ensures Nullish(Get(x.fields, k)) <==> Nullish(Get(y.fields, k))
    ensures !Nullish(Get(x.fields, k)) ==> Strip(x.fields[k]) == Strip(y.fields[k])
  {
    assert !Nullish(Get(x.fields, k)) <==> k in Strip(x).fields;
    assert !Nullish(Get(y.fields, k)) <==> k in Strip(y).fields;
    if k in Strip(x).fields {
      assert Strip(x).fields[k] == Strip(x.fields[k]);
      assert Strip(y).fields[k] == Strip(y.fields[k]);
    }
  }

  lemma SameBase(x: Value, y: Value, k: string)
    requires x.Obj? && y.Obj? && Strip(x) == Strip(y)
    ensures Strip(Base(Get(x.fields, k))) == Strip(Base(Get(y.fields, k)))
  {
    SameField(x, y, k);
  }
}
