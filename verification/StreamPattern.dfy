/** Stream filters: the portable regex subset, its translation to a SQLite
    GLOB, and the proof that the translation keeps its meaning. */
module StreamPattern {

  datatype Result<+T> = Ok(value: T) | ValidationError(input: string)

  // ---------------------------------------------------------------- regex

  datatype Regex =
    | Empty
    | Chr(c: char)
    | Dot
    | Star(r: Regex)
    | Cat(left: Regex, right: Regex)

  // The language of a regex over a whole string.
  ghost predicate Matches(r: Regex, s: string)
    decreases |s|, r
  {
    match r
    case Empty => s == ""
    case Chr(c) => s == [c]
    case Dot => |s| == 1
    case Star(a) => s == "" || exists i :: 0 < i <= |s| && Matches(a, s[..i]) && Matches(r, s[i..])
    case Cat(a, b) => exists i :: 0 <= i <= |s| && Matches(a, s[..i]) && Matches(b, s[i..])
  }

  const META := {'\\', '^', '$', '.', '(', ')', '[', ']', '{', '}', '|', '+', '?', '*'}

  function Body(input: string): string {
    var s := if Anchored(input) then input[1..] else input;
    if Closed(input) then s[..|s| - 1] else s
  }

  predicate Anchored(input: string) {
    input != "" && input[0] == '^'
  }

  predicate Closed(input: string) {
    input != "" && input[|input| - 1] == '$'
  }

  // `PORTABLE_BODY`: literals, `.` and `.*`.
  predicate Portable(s: string): (portable: bool)
    ensures portable && s != "" ==> s[0] != '*'
  {
    || s == ""
    || (|s| >= 2 && s[0] == '.' && s[1] == '*' && Portable(s[2..]))
    || (s[0] == '.' && Portable(s[1..]))
    || (s[0] !in META && Portable(s[1..]))
  }

  function Parse(s: string): Regex
    requires Portable(s)
  {
    if s == "" then Empty
    else if s[0] == '.' && |s| >= 2 && s[1] == '*' then Cat(Star(Dot), Parse(s[2..]))
    else if s[0] == '.' then Cat(Dot, Parse(s[1..]))
    else Cat(Chr(s[0]), Parse(s[1..]))
  }

  // Regex search: some stretch of `subject` matches, pinned by the anchors.
  ghost predicate Search(input: string, subject: string)
    requires Portable(Body(input))
  {
    exists i, j :: 0 <= i <= j <= |subject|
      && (Anchored(input) ==> i == 0) && (Closed(input) ==> j == |subject|)
      && Matches(Parse(Body(input)), subject[i..j])
  }

  // ---------------------------------------------------------------- GLOB

  // SQLite's GLOB over a whole string, for patterns without a `[` class.
  predicate Glob(g: string, s: string)
    requires '[' !in g
    decreases |g| + |s|
  {
    if g == "" then s == ""
    else if g[0] == '*' then Glob(g[1..], s) || (s != "" && Glob(g, s[1..]))
    else s != "" && (g[0] == '?' || g[0] == s[0]) && Glob(g[1..], s[1..])
  }

  // One GLOB token per portable construct.
  function Tokens(s: string): (g: string)
    requires Portable(s)
    ensures '[' !in g
  {
    if s == "" then ""
    else if s[0] == '.' && |s| >= 2 && s[1] == '*' then "*" + Tokens(s[2..])
    else if s[0] == '.' then "?" + Tokens(s[1..])
    else [s[0]] + Tokens(s[1..])
  }

  // Adjacent stars collapsed, given the token already emitted.
  function Collapse(g: string, star: bool): (r: string)
    ensures '[' !in g ==> '[' !in r
  {
    if g == "" then ""
    else if g[0] == '*' && star then Collapse(g[1..], true)
    else [g[0]] + Collapse(g[1..], g[0] == '*')
  }

  function Compile(input: string): (r: Result<string>)
    ensures r.Ok? ==> '[' !in r.value
  {
    var s := Body(input);
    if !Portable(s) then ValidationError(input)
    else Ok(Collapse((if Anchored(input) then "" else "*") + Tokens(s) + (if Closed(input) then "" else "*"), false))
  }

  // The first loop of the source: one token per construct of the body.
  method Tokenize(s: string) returns (tokens: string)
    requires Portable(s)
    ensures tokens == Tokens(s)
  {
    tokens := "";
    var i := 0;
    while i < |s|
      invariant 0 <= i <= |s| && Portable(s[i..])
      invariant tokens + Tokens(s[i..]) == Tokens(s)
    {
      var c, before := s[i], tokens;
      assert s[i..][1..] == s[i + 1..];
      if c == '.' {
        if i + 1 < |s| && s[i + 1] == '*' {
          assert s[i..][2..] == s[i + 2..];
          tokens := tokens + "*";
          i := i + 1;
          assert before + ("*" + Tokens(s[i + 1..])) == tokens + Tokens(s[i + 1..]);
        } else {
          tokens := tokens + "?";
          assert before + ("?" + Tokens(s[i + 1..])) == tokens + Tokens(s[i + 1..]);
        }
      } else {
        tokens := tokens + [c];
        assert before + ([c] + Tokens(s[i + 1..])) == tokens + Tokens(s[i + 1..]);
      }
      i := i + 1;
    }
  }

  // The second loop: drop a star that follows a star.
  method CollapseStars(tokens: string) returns (out: string)
    ensures out == Collapse(tokens, false)
  {
    out := "";
    var prevStar := false;
    for j := 0 to |tokens|
      invariant out + Collapse(tokens[j..], prevStar) == Collapse(tokens, false)
    {
      var t, before := tokens[j], out;
      assert tokens[j..][1..] == tokens[j + 1..];
      if t == '*' && prevStar {
        continue;
      }
      out := out + [t];
      prevStar := t == '*';
      assert before + ([t] + Collapse(tokens[j + 1..], prevStar)) == out + Collapse(tokens[j + 1..], prevStar);
    }
  }

  method StreamPatternToGlob(input: string) returns (r: Result<string>)
    ensures r == Compile(input)
  {
    var s := Body(input);
    if !Portable(s) {
      return ValidationError(input);
    }
    var tokens := Tokenize(s);
    if !Anchored(input) {
      tokens := "*" + tokens;
    }
    if !Closed(input) {
      tokens := tokens + "*";
    }
    ghost var a, b := if Anchored(input) then "" else "*", if Closed(input) then "" else "*";
    assert tokens == a + Tokens(s) + b;
    var out := CollapseStars(tokens);
    r := Ok(out);
  }

  // ---------------------------------------------------------------- stars

  lemma {:induction false} LeadingStar(g: string, s: string)
    requires '[' !in g
    ensures Glob("*" + g, s) <==> exists i :: 0 <= i <= |s| && Glob(g, s[i..])
    decreases |s|
  {
    assert ("*" + g)[1..] == g;
    assert s[0..] == s;
    if s != "" {
      LeadingStar(g, s[1..]);
      forall i | 0 <= i < |s| ensures s[1..][i..] == s[i + 1..] {}
      if i :| 0 <= i <= |s| && Glob(g, s[i..]) {
        if i > 0 {
          assert s[1..][i - 1..] == s[i..];
        }
      }
    }
  }

  lemma {:induction false} TrailingStar(g: string, s: string)
    requires '[' !in g
    ensures Glob(g + "*", s) <==> exists j :: 0 <= j <= |s| && Glob(g, s[..j])
    decreases |g| + |s|
  {
    if g == "" {
      assert g + "*" == "*" + "";
      LeadingStar("", s);
      assert s[|s|..] == "";
      assert Glob("", s[..0]);
    } else {
      assert (g + "*")[1..] == g[1..] + "*";
      if g[0] == '*' {
        TrailingStar(g[1..], s);
        if s != "" {
          TrailingStar(g, s[1..]);
        }
        if Glob(g + "*", s) {
          if Glob(g[1..] + "*", s) {
            var j :| 0 <= j <= |s| && Glob(g[1..], s[..j]);
            assert Glob(g, s[..j]);
          } else {
            var j :| 0 <= j <= |s[1..]| && Glob(g, s[1..][..j]);
            assert s[..j + 1][1..] == s[1..][..j];
            assert Glob(g, s[..j + 1]);
          }
        }
        if j :| 0 <= j <= |s| && Glob(g, s[..j]) {
          if !Glob(g[1..], s[..j]) {
            assert s[..j][1..] == s[1..][..j - 1];
          }
        }
      } else if s != "" {
        TrailingStar(g[1..], s[1..]);
        if Glob(g + "*", s) {
          var j :| 0 <= j <= |s[1..]| && Glob(g[1..], s[1..][..j]);
          assert s[..j + 1][1..] == s[1..][..j];
          assert Glob(g, s[..j + 1]);
        }
        if j :| 0 <= j <= |s| && Glob(g, s[..j]) {
          assert s[..j][1..] == s[1..][..j - 1];
        }
      }
    }
  }

  lemma DoubleStar(g: string, s: string)
    requires '[' !in g
    ensures Glob("*" + ("*" + g), s) <==> Glob("*" + g, s)
  {
    LeadingStar("*" + g, s);
    LeadingStar(g, s);
    forall i | 0 <= i <= |s| ensures Glob("*" + g, s[i..]) ==> Glob("*" + g, s) {
      LeadingStar(g, s[i..]);
      if k :| 0 <= k <= |s[i..]| && Glob(g, s[i..][k..]) {
        assert s[i..][k..] == s[i + k..];
      }
    }
    assert s[0..] == s;
  }

  // ---------------------------------------------------------------- collapsing

  lemma {:induction false} CollapseKeeps(g: string, s: string)
    requires '[' !in g
    ensures Glob(Collapse(g, false), s) <==> Glob(g, s)
    decreases |g|, 0
  {
    if g != "" {
      if g[0] == '*' {
        CollapseAfterStar(g[1..], s);
        assert g == "*" + g[1..];
        assert Collapse(g, false) == "*" + Collapse(g[1..], true);
      } else {
        var h := Collapse(g, false);
        assert h == [g[0]] + Collapse(g[1..], false) && h[1..] == Collapse(g[1..], false);
        if s != "" {
          CollapseKeeps(g[1..], s[1..]);
        }
      }
    }
  }

  lemma {:induction false} CollapseAfterStar(g: string, s: string)
    requires '[' !in g
    ensures Glob("*" + Collapse(g, true), s) <==> Glob("*" + g, s)
    decreases |g|, 1
  {
    if g != "" && g[0] == '*' {
      CollapseAfterStar(g[1..], s);
      DoubleStar(g[1..], s);
      assert g == "*" + g[1..];
    } else if g != "" {
      LeadingStar(g, s);
      LeadingStar(Collapse(g, false), s);
      assert Collapse(g, true) == Collapse(g, false);
      forall i | 0 <= i <= |s| ensures Glob(Collapse(g, false), s[i..]) <==> Glob(g, s[i..]) {
        CollapseKeeps(g, s[i..]);
      }
    }
  }

  ghost predicate NoAdjacentStars(g: string) {
    forall i :: 0 < i < |g| ==> !(g[i - 1] == '*' && g[i] == '*')
  }

  lemma {:induction false} CollapseIsMinimal(g: string, star: bool)
    ensures NoAdjacentStars(Collapse(g, star))
    ensures star && Collapse(g, star) != "" ==> Collapse(g, star)[0] != '*'
  {
    if g != "" {
      CollapseIsMinimal(g[1..], g[0] == '*');
    }
  }

  // ---------------------------------------------------------------- meaning

  lemma {:induction false} AnyRun(s: string)
    ensures Matches(Star(Dot), s)
  {
    if s != "" {
      AnyRun(s[1..]);
      assert Matches(Dot, s[..1]);
    }
  }

  lemma {:induction false} TokensMean(p: string, s: string)
    requires Portable(p)
    ensures Glob(Tokens(p), s) <==> Matches(Parse(p), s)
    decreases |p|
  {
    if p == "" {
    } else if p[0] == '.' && |p| >= 2 && p[1] == '*' {
      var rest := p[2..];
      LeadingStar(Tokens(rest), s);
      forall i | 0 <= i <= |s|
        ensures Matches(Star(Dot), s[..i]) && (Glob(Tokens(rest), s[i..]) <==> Matches(Parse(rest), s[i..]))
      {
        AnyRun(s[..i]);
        TokensMean(rest, s[i..]);
      }
    } else {
      var rest := p[1..];
      assert Tokens(p)[1..] == Tokens(rest);
      var head := if p[0] == '.' then Dot else Chr(p[0]);
      assert Parse(p) == Cat(head, Parse(rest));
      if s != "" {
        TokensMean(rest, s[1..]);
        assert s[..1] == [s[0]];
        if Glob(Tokens(p), s) {
          assert Matches(head, s[..1]) && Matches(Parse(rest), s[1..]);
        }
      }
      if i :| 0 <= i <= |s| && Matches(head, s[..i]) && Matches(Parse(rest), s[i..]) {
        assert i == 1;
      }
    }
  }

  // The compiled GLOB matches a whole string exactly when regex search finds
  // the pattern in it, and a pattern is refused exactly when its body is not
  // portable.
  lemma CompileKeepsMeaning(input: string, subject: string)
    ensures Compile(input).Ok? <==> Portable(Body(input))
    ensures Compile(input).Ok? ==> NoAdjacentStars(Compile(input).value)
    ensures Compile(input).Ok? ==> (Glob(Compile(input).value, subject) <==> Search(input, subject))
  {
    var s := Body(input);
    if Portable(s) {
      var t := Tokens(s);
      var a, b := if Anchored(input) then "" else "*", if Closed(input) then "" else "*";
      CollapseKeeps(a + t + b, subject);
      CollapseIsMinimal(a + t + b, false);
      assert a + t + b == a + (t + b);
      Windowed(s, t + b, a, b, subject);
      forall i, j | 0 <= i <= j <= |subject|
        ensures Glob(t, subject[i..j]) <==> Matches(Parse(s), subject[i..j])
      {
        TokensMean(s, subject[i..j]);
      }
    }
  }

  // A star on either side turns whole-string matching into a search.
  lemma Windowed(p: string, tb: string, a: string, b: string, s: string)
    requires Portable(p) && a in {"", "*"} && b in {"", "*"} && tb == Tokens(p) + b
    ensures Glob(a + tb, s) <==>
            exists i, j :: 0 <= i <= j <= |s| && (a == "" ==> i == 0) && (b == "" ==> j == |s|)
              && Glob(Tokens(p), s[i..j])
  {
    var t := Tokens(p);
    forall i | 0 <= i <= |s|
      ensures Glob(tb, s[i..]) <==>
              exists j :: i <= j <= |s| && (b == "" ==> j == |s|) && Glob(t, s[i..j])
    {
      TailWindow(t, b, s, i);
    }
    if a == "" {
      assert a + tb == tb && s[0..] == s;
    } else {
      LeadingStar(tb, s);
      if Glob(a + tb, s) {
        var i :| 0 <= i <= |s| && Glob(tb, s[i..]);
        var j :| i <= j <= |s| && (b == "" ==> j == |s|) && Glob(t, s[i..j]);
        assert Glob(Tokens(p), s[i..j]);
      }
      if i, j :| 0 <= i <= j <= |s| && (b == "" ==> j == |s|) && Glob(t, s[i..j]) {
        assert Glob(tb, s[i..]);
      }
    }
  }

  lemma TailWindow(t: string, b: string, s: string, i: nat)
    requires '[' !in t && b in {"", "*"} && i <= |s|
    ensures Glob(t + b, s[i..]) <==>
            exists j :: i <= j <= |s| && (b == "" ==> j == |s|) && Glob(t, s[i..j])
  {
    if b == "" {
      assert t + b == t && s[i..|s|] == s[i..];
    } else {
      TrailingStar(t, s[i..]);
      forall j | 0 <= j <= |s| - i ensures s[i..][..j] == s[i..i + j] {}
      if j :| i <= j <= |s| && Glob(t, s[i..j]) {
        assert s[i..][..j - i] == s[i..j];
      }
    }
  }
}
