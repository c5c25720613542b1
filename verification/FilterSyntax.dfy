/** The filter syntax spelled out: which filters compile, and what search means
    with and without each anchor. */
module FilterSyntax {
  import opened StreamPattern

  // ---------------------------------------------------------------- which filters compile

  // A character of a body the subset has no reading for: regex syntax other
  // than `.` and `*`, or a `*` that does not directly follow a `.`.
  predicate Foreign(b: string, i: nat)
    requires i < |b|
  {
    || b[i] in {'\\', '^', '$', '(', ')', '[', ']', '{', '}', '|', '+', '?'}
    || (b[i] == '*' && (i == 0 || b[i - 1] != '.'))
  }

  lemma {:induction false} PortableExactly(b: string)
    ensures Portable(b) <==> forall i :: 0 <= i < |b| ==> !Foreign(b, i)
  {
    if b != "" {
      var n := if b[0] == '.' && |b| >= 2 && b[1] == '*' then 2 else 1;
      var rest := b[n..];
      PortableExactly(rest);
      forall i | 0 < i < |rest| ensures Foreign(rest, i) <==> Foreign(b, i + n) {
        assert rest[i] == b[i + n] && rest[i - 1] == b[i + n - 1];
      }
      if rest != "" {
        var last, next := b[n - 1], b[n];
        assert rest[0] == next;
        assert Foreign(rest, 0) <==> Foreign(b, n) || (next == '*' && last == '.');
      }
      assert Portable(b) ==> Portable(rest) && !Foreign(b, 0);
      if forall i :: 0 <= i < |b| ==> !Foreign(b, i) {
        forall i | 0 <= i < |rest| ensures !Foreign(rest, i) {
          assert !Foreign(b, i + n);
        }
        assert !Foreign(b, 0);
      }
      if Portable(b) {
        forall i | 0 <= i < |b| ensures !Foreign(b, i) {
          if i >= n {
            assert !Foreign(rest, i - n);
          }
        }
      }
    }
  }

  // The stretch between the anchors.
  function First(input: string): nat {
    if input != "" && input[0] == '^' then 1 else 0
  }

  function End(input: string): nat {
    if input != "" && input[|input| - 1] == '$' then |input| - 1 else |input|
  }

  // A filter is refused exactly when a character between its anchors is
  // foreign to the subset.
  lemma RefusedExactly(input: string)
    ensures First(input) <= End(input) <= |input|
    ensures Compile(input).ValidationError? <==>
              var b := input[First(input)..End(input)];
              exists i :: 0 <= i < |b| && Foreign(b, i)
    ensures Compile(input).ValidationError? ==> Compile(input).input == input
  {
    assert Body(input) == input[First(input)..End(input)];
    PortableExactly(Body(input));
  }

  // What search means with and without each anchor.
  lemma AnchorsMean(b: string, s: string)
    requires Portable(b)
    ensures Body("^" + b + "$") == Body("^" + b) == Body(b + "$") == Body(b) == b
    ensures Search("^" + b + "$", s) <==> Matches(Parse(b), s)
    ensures Search("^" + b, s) <==> exists j :: 0 <= j <= |s| && Matches(Parse(b), s[..j])
    ensures Search(b + "$", s) <==> exists i :: 0 <= i <= |s| && Matches(Parse(b), s[i..])
    ensures Search(b, s) <==> exists i, j :: 0 <= i <= j <= |s| && Matches(Parse(b), s[i..j])
  {
    PortableExactly(b);
    if b != "" {
      assert !Foreign(b, 0) && !Foreign(b, |b| - 1);
    }
    BothAnchors(b, s);
    Opening(b, s);
    Closing(b, s);
  }

  lemma BothAnchors(b: string, s: string)
    requires Portable(b)
    ensures Body("^" + b + "$") == b
    ensures Search("^" + b + "$", s) <==> Matches(Parse(b), s)
  {
    hide Matches, Parse, Portable;
    var input := "^" + b + "$";
    assert Anchored(input) && Closed(input) && Body(input) == b;
    assert s[0..|s|] == s;
  }

  lemma Opening(b: string, s: string)
    requires Portable(b) && (b != "" ==> b[|b| - 1] != '$')
    ensures Body("^" + b) == b
    ensures Search("^" + b, s) <==> exists j :: 0 <= j <= |s| && Matches(Parse(b), s[..j])
  {
    hide Matches, Parse, Portable;
    var input := "^" + b;
    assert Anchored(input) && !Closed(input) && Body(input) == b;
    forall j | 0 <= j <= |s| ensures s[0..j] == s[..j] {}
  }

  lemma Closing(b: string, s: string)
    requires Portable(b) && (b != "" ==> b[0] != '^')
    ensures Body(b + "$") == b
    ensures Search(b + "$", s) <==> exists i :: 0 <= i <= |s| && Matches(Parse(b), s[i..])
  {
    hide Matches, Parse, Portable;
    var input := b + "$";
    assert !Anchored(input) && Closed(input) && Body(input) == b;
    forall i | 0 <= i <= |s| ensures s[i..|s|] == s[i..] {}
  }
}
