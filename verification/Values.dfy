/** JavaScript values as `patch` and `delta` see them: which are falsy, which
    count as plain objects, and which own properties a spread copies. */
module Values {

  datatype Number = Finite(r: real) | NegativeZero | NaN | Infinite(negative: bool)

  datatype Value =
    | Undefined
    | Null
    | Bool(b: bool)
    | Num(n: Number)
    | Str(s: string)
    // arrays, dates, maps, typed arrays, class instances: an identity plus the
    // enumerable own properties a spread would copy out of it
    | Opaque(ref: nat, own: map<string, Value>)
    | Obj(fields: map<string, Value>)

  const EMPTY := Obj(map[])

  predicate Nullish(v: Value) {
    v.Undefined? || v.Null?
  }

  predicate Falsy(v: Value) {
    || Nullish(v)
    || v == Bool(false)
    || v == Str("")
    || (v.Num? && (v.n == Finite(0.0) || v.n.NegativeZero? || v.n.NaN?))
  }

  function Decimal(n: nat): string {
    (if n < 10 then "" else Decimal(n / 10)) + [(n % 10) as char + '0']
  }

  // The index properties of a string primitive, from index `i` on.
  function Characters(s: string, i: nat): map<string, Value>
    requires i <= |s|
    decreases |s| - i
  {
    if i == |s| then map[] else Characters(s, i + 1)[Decimal(i) := Str([s[i]])]
  }

  lemma {:induction false} DecimalApart(a: nat, b: nat)
    requires Decimal(a) == Decimal(b)
    ensures a == b
  {
    var x, y := Decimal(a), Decimal(b);
    assert x[|x| - 1] == (a % 10) as char + '0' && y[|y| - 1] == (b % 10) as char + '0';
    assert x[..|x| - 1] == (if a < 10 then "" else Decimal(a / 10));
    assert y[..|y| - 1] == (if b < 10 then "" else Decimal(b / 10));
    if a >= 10 && b >= 10 {
      DecimalApart(a / 10, b / 10);
    }
  }

  predicate IndexOf(s: string, from: int, i: int, k: string) {
    0 <= from <= i < |s| && Decimal(i) == k
  }

  lemma {:induction false} CharactersExactly(s: string, from: nat, k: string)
    requires from <= |s|
    ensures k in Characters(s, from) <==> exists i :: IndexOf(s, from, i, k)
    ensures forall i :: IndexOf(s, from, i, k) ==> Characters(s, from)[k] == Str([s[i]])
    decreases |s| - from
  {
    if from < |s| {
      var next := from + 1;
      CharactersExactly(s, next, k);
      assert IndexOf(s, from, from, Decimal(from));
      forall i | IndexOf(s, from, i, k)
        ensures k in Characters(s, from) && Characters(s, from)[k] == Str([s[i]])
      {
        if k == Decimal(from) {
          DecimalApart(i, from);
        } else {
          assert IndexOf(s, next, i, k);
        }
      }
      if i :| IndexOf(s, next, i, k) {
        assert IndexOf(s, from, i, k);
      }
    }
  }

  // `Object.keys` and spread over any value.
  function Own(v: Value): map<string, Value> {
    match v
    case Obj(fields) => fields
    case Opaque(_, own) => own
    case Str(s) => Characters(s, 0)
    case _ => map[]
  }

  // Plain objects with their null-valued keys dropped at every depth.
  function Strip(v: Value): Value
    decreases v
  {
    if v.Obj? then
      Obj(map k | k in v.fields && !Nullish(v.fields[k]) :: Strip(v.fields[k]))
    else
      v
  }

  lemma {:induction false} StripTwice(v: Value)
    ensures Strip(Strip(v)) == Strip(v)
    decreases v
  {
    if v.Obj? {
      forall k | k in v.fields ensures Strip(Strip(v.fields[k])) == Strip(v.fields[k]) {
        StripTwice(v.fields[k]);
      }
      assert Strip(Strip(v)).fields == Strip(v).fields;
    }
  }

  // The keys of a property map in some enumeration order.
  method Keys(m: map<string, Value>) returns (ks: seq<string>)
    ensures |ks| == |m|
    ensures forall i, j :: 0 <= i < j < |ks| ==> ks[i] != ks[j]
    ensures forall k :: k in ks <==> k in m
  {
    ks := [];
    var rest := m.Keys;
    while rest != {}
      invariant rest <= m.Keys
      invariant |ks| + |rest| == |m|
      invariant forall i, j :: 0 <= i < j < |ks| ==> ks[i] != ks[j]
      invariant forall k :: k in ks <==> k in m && k !in rest
    {
      var k :| k in rest;
      ks := ks + [k];
      rest := rest - {k};
    }
  }
}
