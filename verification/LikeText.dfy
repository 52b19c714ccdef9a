/** The text operators `contains`, `startsWith` and `endsWith` compile to LIKE without an ESCAPE
    clause.  They mean what their names say exactly when the text has no wildcard and, on an engine
    that escapes with the backslash unasked, no backslash. */
module LikeText {
  import opened Where

  // The LIKE predicate (section 8.5 of ISO/IEC 9075:1992).  With `esc` the backslash is the escape
  // character: what follows it stands for itself, and a pattern that ends in one matches nothing.
  predicate LikeMatch(esc: bool, x: string, p: string)
    decreases |p|, |x|
  {
    if p == [] then x == []
    else if p[0] == '%' then LikeMatch(esc, x, p[1..]) || (x != [] && LikeMatch(esc, x[1..], p))
    else if esc && p[0] == '\\' then |p| > 1 && x != [] && p[1] == x[0] && LikeMatch(esc, x[1..], p[2..])
    else x != [] && (p[0] == '_' || p[0] == x[0]) && LikeMatch(esc, x[1..], p[1..])
  }

  predicate Special(esc: bool, c: char) {
    c == '%' || c == '_' || (esc && c == '\\')
  }

  predicate Ordinary(esc: bool, s: string) {
    forall i :: 0 <= i < |s| ==> !Special(esc, s[i])
  }

  predicate OccursAt(s: string, x: string, i: nat) {
    i <= |x| && s <= x[i..]
  }

  ghost predicate TextHolds(t: TextOp, x: string, s: string) {
    match t
    case Contains => exists i :: OccursAt(s, x, i)
    case StartsWith => s <= x
    case EndsWith => |s| <= |x| && x[|x| - |s|..] == s
  }

  // ---------------------------------------------------------------- ordinary texts

  lemma {:induction false} PlainPrefix(esc: bool, x: string, s: string, q: string)
    requires Ordinary(esc, s)
    ensures LikeMatch(esc, x, s + q) <==> s <= x && LikeMatch(esc, x[|s|..], q)
  {
    if s == [] {
      assert s + q == q && x[0..] == x;
    } else {
      assert (s + q)[1..] == s[1..] + q;
      if x != [] {
        PlainPrefix(esc, x[1..], s[1..], q);
        if |s| <= |x| { assert x[1..][|s[1..]|..] == x[|s|..]; }
        assert s <= x <==> s[0] == x[0] && s[1..] <= x[1..];
      }
    }
  }

  lemma {:induction false} PercentAnywhere(esc: bool, x: string, q: string)
    ensures LikeMatch(esc, x, "%" + q) <==> exists i :: 0 <= i <= |x| && LikeMatch(esc, x[i..], q)
    decreases |x|
  {
    var p := "%" + q;
    assert p[1..] == q && x[0..] == x;
    if x != [] {
      PercentAnywhere(esc, x[1..], q);
      forall i | 0 <= i <= |x[1..]| ensures x[1..][i..] == x[i + 1..] {}
      if i :| 0 <= i <= |x| && LikeMatch(esc, x[i..], q) && i > 0 {
        assert x[1..][i - 1..] == x[i..];
      }
      if i :| 0 <= i <= |x[1..]| && LikeMatch(esc, x[1..][i..], q) {
        assert LikeMatch(esc, x[i + 1..], q);
      }
    }
  }

  lemma PercentAll(esc: bool, x: string)
    ensures LikeMatch(esc, x, "%")
  {
    assert LikeMatch(esc, x[|x|..], "");
    PercentAnywhere(esc, x, "");
    assert "%" + "" == "%";
  }

  lemma PlainTextHolds(esc: bool, t: TextOp, x: string, s: string)
    requires Ordinary(esc, s)
    ensures LikeMatch(esc, x, LikePattern(t, s)) <==> TextHolds(t, x, s)
  {
    match t
    case StartsWith =>
      PlainPrefix(esc, x, s, "%");
      if s <= x { PercentAll(esc, x[|s|..]); }
    case EndsWith =>
      PercentAnywhere(esc, x, s);
      assert s + "" == s;
      forall i | 0 <= i <= |x| ensures LikeMatch(esc, x[i..], s) <==> x[i..] == s {
        PlainPrefix(esc, x[i..], s, "");
      }
      if |s| <= |x| && x[|x| - |s|..] == s {
        assert LikeMatch(esc, x[|x| - |s|..], s);
      }
    case Contains =>
      assert LikePattern(t, s) == "%" + (s + "%");
      PercentAnywhere(esc, x, s + "%");
      forall i: nat | i <= |x| ensures LikeMatch(esc, x[i..], s + "%") <==> OccursAt(s, x, i) {
        PlainPrefix(esc, x[i..], s, "%");
        if s <= x[i..] { PercentAll(esc, x[i..][|s|..]); }
      }
  }

  // ---------------------------------------------------------------- other texts

  lemma {:induction false} MatchConcat(esc: bool, a: string, p: string, b: string, q: string)
    requires LikeMatch(esc, a, p) && LikeMatch(esc, b, q)
    ensures LikeMatch(esc, a + b, p + q)
    decreases |p|, |a|
  {
    if p == [] {
      assert a + b == b && p + q == q;
    } else {
      assert (p + q)[1..] == p[1..] + q;
      if p[0] == '%' && LikeMatch(esc, a, p[1..]) {
        MatchConcat(esc, a, p[1..], b, q);
      } else {
        assert (a + b)[1..] == a[1..] + b;
        if esc && p[0] == '\\' {
          assert (p + q)[2..] == p[2..] + q && (p + q)[1] == p[1];
          MatchConcat(esc, a[1..], p[2..], b, q);
        } else {
          MatchConcat(esc, a[1..], if p[0] == '%' then p else p[1..], b, q);
        }
      }
    }
  }

  // The pattern ends in an escape character with nothing after it.
  predicate EndsAlone(p: string) {
    p != [] && if p[0] == '\\' then |p| == 1 || EndsAlone(p[2..]) else EndsAlone(p[1..])
  }

  lemma {:induction false} AloneNeverMatches(x: string, p: string)
    requires EndsAlone(p)
    ensures !LikeMatch(true, x, p)
    decreases |p|, |x|
  {
    if p[0] == '%' {
      AloneNeverMatches(x, p[1..]);
      if x != [] { AloneNeverMatches(x[1..], p); }
    } else if p[0] == '\\' {
      if |p| > 1 && x != [] { AloneNeverMatches(x[1..], p[2..]); }
    } else if x != [] {
      AloneNeverMatches(x[1..], p[1..]);
    }
  }

  // A string that the pattern matches: escape characters dropped, all else standing for itself.
  function Unescaped(p: string): string {
    if p == [] then []
    else if p[0] == '\\' && |p| > 1 then [p[1]] + Unescaped(p[2..])
    else [p[0]] + Unescaped(p[1..])
  }

  lemma {:induction false} UnescapedMatches(p: string)
    requires !EndsAlone(p)
    ensures LikeMatch(true, Unescaped(p), p)
    ensures |Unescaped(p)| <= |p| && ('\\' in p ==> |Unescaped(p)| < |p|)
  {
    if p != [] {
      assert p == [p[0]] + p[1..];
      if p[0] == '\\' {
        UnescapedMatches(p[2..]);
        assert Unescaped(p)[1..] == Unescaped(p[2..]);
      } else {
        UnescapedMatches(p[1..]);
        assert Unescaped(p)[1..] == Unescaped(p[1..]);
        if p[0] == '%' {
          assert LikeMatch(true, Unescaped(p[1..]), p[1..]);
          PercentAnywhere(true, Unescaped(p), p[1..]);
          assert Unescaped(p)[1..] == Unescaped(p[1..]) && "%" + p[1..] == p;
        }
      }
    }
  }

  lemma AroundMatch(esc: bool, t: TextOp, x: string, s: string)
    requires LikeMatch(esc, x, s)
    ensures LikeMatch(esc, x, LikePattern(t, s))
  {
    PercentAll(esc, "");
    assert "" + x == x && x + "" == x;
    match t
    case StartsWith => MatchConcat(esc, x, s, "", "%");
    case EndsWith => MatchConcat(esc, "", "%", x, s);
    case Contains =>
      MatchConcat(esc, "", "%", x, s);
      MatchConcat(esc, x, "%" + s, "", "%");
  }

  lemma ShorterDoesNotHold(t: TextOp, x: string, s: string)
    requires x != s && |x| <= |s|
    ensures !TextHolds(t, x, s)
  {
    assert x[0..] == x;
  }

  lemma {:induction false} AloneLast(p: string)
    requires EndsAlone(p)
    ensures p[|p| - 1] == '\\'
    ensures !EndsAlone(p + "%") && Unescaped(p + "%") != [] && Unescaped(p + "%")[|Unescaped(p + "%")| - 1] == '%'
  {
    var q := p + "%";
    if p[0] == '\\' {
      if |p| == 1 {
        assert q[2..] == "";
      } else {
        assert q[2..] == p[2..] + "%";
        AloneLast(p[2..]);
      }
    } else {
      assert q[1..] == p[1..] + "%";
      AloneLast(p[1..]);
    }
  }

  // A text that ends in a lone escape character: before the closing `%` it makes that one literal,
  // and at the end of the pattern it makes it match nothing.
  lemma AloneBreaksText(t: TextOp, s: string) returns (x: string)
    requires EndsAlone(s)
    ensures LikeMatch(true, x, LikePattern(t, s)) != TextHolds(t, x, s)
  {
    if t == EndsWith {
      x := s;
      assert ("%" + s)[1..] == s && EndsAlone("%" + s);
      AloneNeverMatches(x, "%" + s);
    } else {
      x := Unescaped(s + "%");
      AloneLast(s);
      UnescapedMatches(s + "%");
      assert s[|s| - 1] == (s + "%")[|s| - 1];
      ShorterDoesNotHold(t, x, s);
      if t == Contains {
        PercentAll(true, "");
        MatchConcat(true, "", "%", x, s + "%");
        assert "" + x == x && "%" + (s + "%") == LikePattern(t, s);
      }
    }
  }

  /** Whenever the text holds a backslash, an engine that escapes with it decides some string wrongly. */
  lemma EscapeBreaksText(t: TextOp, s: string) returns (x: string)
    requires '\\' in s
    ensures LikeMatch(true, x, LikePattern(t, s)) != TextHolds(t, x, s)
  {
    if EndsAlone(s) {
      x := AloneBreaksText(t, s);
    } else {
      x := Unescaped(s);
      UnescapedMatches(s);
      AroundMatch(true, t, x, s);
      ShorterDoesNotHold(t, x, s);
    }
  }

  lemma {:induction false} MatchSelf(esc: bool, s: string)
    requires esc ==> '\\' !in s
    ensures LikeMatch(esc, s, s)
  {
    if s != [] {
      assert s == [s[0]] + s[1..];
      MatchSelf(esc, s[1..]);
      if s[0] == '%' {
        assert LikeMatch(esc, s[1..], s);
      }
    }
  }

  /** Whenever the text holds a wildcard some string is matched although the text does not occur. */
  lemma WildcardBreaksText(esc: bool, t: TextOp, s: string, k: nat) returns (x: string)
    requires k < |s| && (s[k] == '%' || s[k] == '_') && (esc ==> '\\' !in s)
    ensures LikeMatch(esc, x, LikePattern(t, s)) && !TextHolds(t, x, s)
  {
    var a, w, b := s[..k], [s[k]], s[k + 1..];
    var y := if s[k] == '%' then "" else "x";
    assert LikeMatch(esc, y, w) by {
      assert w[1..] == "";
    }
    x := a + y + b;
    MatchSelf(esc, a);
    MatchSelf(esc, b);
    MatchConcat(esc, a, a, y, w);
    MatchConcat(esc, a + y, a + w, b, b);
    assert a + w + b == s;
    AroundMatch(esc, t, x, s);
    if s[k] == '_' {
      assert x[k] == 'x';
    }
    ShorterDoesNotHold(t, x, s);
  }

  /** `contains`, `startsWith` and `endsWith` hold of exactly the texts their names promise if and only
      if the operand has no `%`, no `_` and, where the backslash escapes, no backslash. */
  lemma TextOperatorsExact(esc: bool, t: TextOp, s: string)
    ensures (forall x :: LikeMatch(esc, x, LikePattern(t, s)) <==> TextHolds(t, x, s)) <==> Ordinary(esc, s)
  {
    if Ordinary(esc, s) {
      forall x ensures LikeMatch(esc, x, LikePattern(t, s)) <==> TextHolds(t, x, s) {
        PlainTextHolds(esc, t, x, s);
      }
    } else if esc && '\\' in s {
      var x := EscapeBreaksText(t, s);
    } else {
      var k: nat :| k < |s| && Special(esc, s[k]);
      assert s[k] in s;
      var x := WildcardBreaksText(esc, t, s, k);
    }
  }

  /** The operand `a\\b` where the backslash escapes: the text `a\\b` is not found, and `ab` is. */
  lemma BackslashBreaksText(t: TextOp)
    ensures !LikeMatch(true, "a\\b", LikePattern(t, "a\\b")) && TextHolds(t, "a\\b", "a\\b")
    ensures LikeMatch(true, "ab", LikePattern(t, "a\\b")) && !TextHolds(t, "ab", "a\\b")
  {
    var s := "a\\b";
    assert s[2..] == "b" && s[1..] == "\\b" && s[1..][2..] == "";
    assert Unescaped("\\b") == ['b'] + Unescaped("") == "b";
    assert Unescaped(s) == ['a'] + Unescaped("\\b") == "ab";
    UnescapedMatches(s);
    AroundMatch(true, t, "ab", s);
    ShorterDoesNotHold(t, "ab", s);
    assert OccursAt(s, s, 0);
    BackslashMissed(s, t);
  }

  // Nowhere in the text does the pattern find the letters a and b side by side.
  lemma BackslashMissed(s: string, t: TextOp)
    requires s == "a\\b"
    ensures !LikeMatch(true, s, LikePattern(t, s))
  {
    forall x, q | x in [s, "\\b", "b", ""] && q in ["", "%"] ensures !LikeMatch(true, x, s + q) {
      assert (s + q)[1..] == "\\b" + q && ("\\b" + q)[2..] == q;
      assert s[1..] == "\\b";
    }
    assert s + "" == s;
    forall i | 0 <= i <= |s| ensures s[i..] in [s, "\\b", "b", ""] {
      assert s[0..] == s && s[1..] == "\\b" && s[2..] == "b" && s[3..] == "";
    }
    match t
    case StartsWith => assert s in [s, "\\b", "b", ""] && "%" in ["", "%"];
    case EndsWith =>
      PercentAnywhere(true, s, s);
      assert "" in ["", "%"];
    case Contains =>
      PercentAnywhere(true, s, s + "%");
      assert "%" in ["", "%"];
      assert LikePattern(t, s) == "%" + (s + "%");
  }
}
