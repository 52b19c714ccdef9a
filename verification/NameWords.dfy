/** What a normalised migration name keeps of the name it was made from: its words of letters and digits,
    in order, joined by underscores (migrate/generate.go). */
module NameWords {
  import opened Strings
  import opened MigrationNames
  import Spelling

  // A small letter of the English alphabet or a digit, by code point.
  predicate WordChar(c: char) {
    97 <= c as int <= 122 || 48 <= c as int <= 57
  }

  // The longest runs of such characters.
  function Words(s: string): (ws: seq<string>)
    ensures s != "" && WordChar(s[|s| - 1]) ==> ws != []
  {
    if s == "" then []
    else
      var init, c := s[..|s| - 1], s[|s| - 1];
      var ws := Words(init);
      if !WordChar(c) then ws
      else if init != "" && WordChar(init[|init| - 1]) then ws[..|ws| - 1] + [ws[|ws| - 1] + [c]]
      else ws + [[c]]
  }

  function Underscored(ws: seq<string>): string {
    if ws == [] then ""
    else if |ws| == 1 then ws[0]
    else Underscored(ws[..|ws| - 1]) + "_" + ws[|ws| - 1]
  }

  // ---------------------------------------------------------------- squeezing

  predicate ProperWord(w: string) {
    w != "" && WordChar(w[0]) && WordChar(w[|w| - 1])
  }

  predicate Proper(ws: seq<string>) {
    forall i :: 0 <= i < |ws| ==> ProperWord(ws[i])
  }

  lemma UnderscoredLast(ws: seq<string>, w: string, c: char)
    ensures Underscored(ws + [w + [c]]) == Underscored(ws + [w]) + [c]
    ensures ws != [] ==> Underscored(ws + [w]) == Underscored(ws) + "_" + w
  {
    assert (ws + [w])[..|ws|] == ws && (ws + [w + [c]])[..|ws|] == ws;
    if ws != [] {
      Later(Underscored(ws), w, c);
    } else {
      assert ws + [w] == [w] && ws + [w + [c]] == [w + [c]];
    }
  }

  lemma Later(a: string, w: string, c: char)
    ensures a + "_" + (w + [c]) == a + "_" + w + [c]
  {
  }

  lemma {:induction false} WordsAreProper(s: string)
    ensures Proper(Words(s))
  {
    if s != "" {
      WordsAreProper(s[..|s| - 1]);
    }
  }

  lemma {:induction false} UnderscoredEnds(ws: seq<string>)
    requires Proper(ws) && ws != []
    ensures Underscored(ws) != "" && WordChar(Underscored(ws)[0]) && WordChar(Underscored(ws)[|Underscored(ws)| - 1])
  {
    if |ws| > 1 {
      UnderscoredEnds(ws[..|ws| - 1]);
      assert ProperWord(ws[|ws| - 1]);
    } else {
      assert ProperWord(ws[0]);
    }
  }

  function Lead(s: string): string {
    if s != "" && !WordChar(s[0]) then "_" else ""
  }

  function Trail(s: string): string {
    if s != "" && !WordChar(s[|s| - 1]) && Words(s) != [] then "_" else ""
  }

  lemma {:induction false} NoWords(s: string)
    requires Words(s) == []
    ensures forall i :: 0 <= i < |s| ==> !WordChar(s[i])
  {
    if s != "" {
      NoWords(s[..|s| - 1]);
      assert !WordChar(s[|s| - 1]);
    }
  }

  lemma SameLead(s: string)
    requires s != ""
    ensures |s| > 1 ==> Lead(s) == Lead(s[..|s| - 1])
    ensures |s| == 1 ==> s[..|s| - 1] == "" && Words("") == []
  {
  }

  /** Squeezing keeps the words and puts one underscore between them, and one at an end that is no word. */
  lemma {:induction false} SqueezedWords(s: string)
    ensures Squeezed(s) == Lead(s) + Underscored(Words(s)) + Trail(s)
  {
    if s != "" {
      var init, c := s[..|s| - 1], s[|s| - 1];
      SqueezedWords(init);
      SameLead(s);
      WordsAreProper(init);
      SqueezedStep(s, init, c, Words(init));
    }
  }

  lemma WordsAppend(s: string, c: char)
    ensures Words(s + [c]) ==
            if !WordChar(c) then Words(s)
            else if s != "" && WordChar(s[|s| - 1]) then Words(s)[..|Words(s)| - 1] + [Words(s)[|Words(s)| - 1] + [c]]
            else Words(s) + [[c]]
  {
    assert (s + [c])[..|s|] == s;
  }

  lemma Reassociate(a: string, b: string, c: char)
    ensures a + b + "" + [c] == a + (b + [c]) + ""
  {
  }

  lemma WordGoesOn(s: string, init: string, c: char, front: seq<string>, w: string)
    requires s == init + [c] && front + [w] == Words(init) && WordChar(c) && init != "" && WordChar(init[|init| - 1])
    requires Squeezed(init) == Lead(init) + Underscored(front + [w]) + ""
    ensures Squeezed(s) == Lead(s) + Underscored(Words(s)) + Trail(s)
  {
    WordsAppend(init, c);
    assert s[..|s| - 1] == init;
    assert Lead(s) == Lead(init) && Trail(s) == "";
    UnderscoredLast(front, w, c);
    Reassociate(Lead(init), Underscored(front + [w]), c);
  }

  lemma FirstWord(s: string, init: string, c: char)
    requires s == init + [c] && Words(init) == [] && WordChar(c) && Squeezed(init) == Lead(init)
    ensures Squeezed(s) == Lead(s) + Underscored(Words(s)) + Trail(s)
  {
    assert s[..|s| - 1] == init;
    NoWords(init);
    assert Words(s) == [[c]] && Underscored([[c]]) == [c];
    assert Squeezed(s) == Lead(s) + [c];
    assert Trail(s) == "";
  }

  lemma LaterWord(s: string, init: string, c: char, ws: seq<string>)
    requires s == init + [c] && ws == Words(init) && ws != [] && WordChar(c) && init != "" && !WordChar(init[|init| - 1])
    requires Squeezed(init) == Lead(init) + Underscored(ws) + "_"
    ensures Squeezed(s) == Lead(s) + Underscored(Words(s)) + Trail(s)
  {
    assert s[..|s| - 1] == init && Words(s) == ws + [[c]];
    UnderscoredLast(ws, [c], c);
    assert Lead(s) == Lead(init) && Trail(s) == "";
    Later2(Lead(init), Underscored(ws), [c]);
  }

  lemma Later2(a: string, b: string, w: string)
    ensures a + b + "_" + w == a + (b + "_" + w) + ""
  {
  }

  lemma NoWordAdded(s: string, init: string, c: char, ws: seq<string>)
    requires s == init + [c] && ws == Words(init) && !WordChar(c) && Proper(ws)
    requires Squeezed(init) == Lead(init) + Underscored(ws) + Trail(init)
    ensures Squeezed(s) == Lead(s) + Underscored(Words(s)) + Trail(s)
  {
    assert s[..|s| - 1] == init && Words(s) == ws;
    if ws == [] {
      NoWords(init);
    } else {
      UnderscoredEnds(ws);
    }
  }

  lemma SqueezedStep(s: string, init: string, c: char, ws: seq<string>)
    requires s == init + [c] && ws == Words(init) && Proper(ws)
    requires Squeezed(init) == Lead(init) + Underscored(ws) + Trail(init)
    ensures Squeezed(s) == Lead(s) + Underscored(Words(s)) + Trail(s)
  {
    if !WordChar(c) {
      NoWordAdded(s, init, c, ws);
    } else if init != "" && WordChar(init[|init| - 1]) {
      assert ws == ws[..|ws| - 1] + [ws[|ws| - 1]];
      WordGoesOn(s, init, c, ws[..|ws| - 1], ws[|ws| - 1]);
    } else if ws == [] {
      NoWords(init);
      assert Trail(init) == "" && Lead(init) + "" + "" == Lead(init);
      FirstWord(s, init, c);
    } else {
      LaterWord(s, init, c, ws);
    }
  }

  // ---------------------------------------------------------------- trimming

  lemma {:induction false} OnlyEnds(core: string, tail: string)
    requires core != "" && core[|core| - 1] != '_' && (tail == "" || tail == "_")
    ensures TrimUnderscoresRight(core + tail) == core
  {
    if tail == "_" {
      assert (core + tail)[..|core + tail| - 1] == core;
    } else {
      assert core + tail == core;
    }
  }

  lemma TrimmedWords(s: string)
    requires Words(s) != []
    ensures TrimUnderscoresRight(TrimUnderscoresLeft(Squeezed(s))) == Underscored(Words(s))
  {
    var core, rest := Underscored(Words(s)), Underscored(Words(s)) + Trail(s);
    SqueezedWords(s);
    WordsAreProper(s);
    UnderscoredEnds(Words(s));
    assert rest[0] == core[0];
    if Lead(s) == "_" {
      assert Squeezed(s) == "_" + rest && Squeezed(s)[1..] == rest;
    } else {
      assert Squeezed(s) == rest;
    }
    assert TrimUnderscoresLeft(rest) == rest;
    OnlyEnds(core, Trail(s));
  }

  lemma NothingTrimmed(s: string)
    requires Words(s) == []
    ensures TrimUnderscoresRight(TrimUnderscoresLeft(Squeezed(s))) == ""
  {
    SqueezedWords(s);
    assert Squeezed(s) == Lead(s);
    assert "_"[1..] == "" && TrimUnderscoresLeft("") == "";
  }

  // ---------------------------------------------------------------- blanks at the ends

  lemma {:induction false} NoneFound(a: string)
    requires forall i :: 0 <= i < |a| ==> !WordChar(a[i])
    ensures Words(a) == []
  {
    if a != "" {
      NoneFound(a[..|a| - 1]);
    }
  }

  lemma {:induction false} WordsBefore(a: string, x: string)
    requires forall i :: 0 <= i < |a| ==> !WordChar(a[i])
    ensures Words(a + x) == Words(x)
  {
    if x == "" {
      assert a + x == a;
      NoneFound(a);
    } else {
      var init, c := x[..|x| - 1], x[|x| - 1];
      WordsBefore(a, init);
      WordsAppend(init, c);
      WordsAppend(a + init, c);
      assert x == init + [c] && a + x == a + init + [c];
    }
  }

  lemma {:induction false} WordsAfter(x: string, b: string)
    requires forall i :: 0 <= i < |b| ==> !WordChar(b[i])
    ensures Words(x + b) == Words(x)
  {
    if b == "" {
      assert x + b == x;
    } else {
      assert (x + b)[..|x + b| - 1] == x + b[..|b| - 1];
      WordsAfter(x, b[..|b| - 1]);
    }
  }

  lemma BlanksAreNoWords(s: string)
    requires Spelling.Blanks(s)
    ensures forall i :: 0 <= i < |s| ==> !WordChar(s[i])
  {
    forall i | 0 <= i < |s| ensures !WordChar(s[i]) {
      assert Spelling.Blank(s[i]);
    }
  }

  lemma Surrounded(a: string, x: string, b: string)
    requires Spelling.Blanks(a) && Spelling.Blanks(b)
    ensures Words(a + x + b) == Words(x)
  {
    BlanksAreNoWords(a);
    BlanksAreNoWords(b);
    WordsAfter(a + x, b);
    WordsBefore(a, x);
  }

  lemma TrimmedKeepsWords(s: string)
    ensures Words(TrimSpace(s)) == Words(s)
  {
    var i, j := Spelling.TrimmedParts(s);
    Surrounded(s[..i], s[i..j], s[j..]);
    assert s == s[..i] + s[i..j] + s[j..];
  }

  /** A normalised name is the words of the lower-case name joined by single underscores, or `autogen` if it
      has none. */
  lemma NormalizedWords(name: string)
    ensures var ws := Words(ToLower(name)); Normalized(name) == if ws == [] then "autogen" else Underscored(ws)
  {
    var s := TrimSpace(ToLower(name));
    TrimmedKeepsWords(ToLower(name));
    if Words(s) == [] {
      NothingTrimmed(s);
    } else {
      TrimmedWords(s);
      WordsAreProper(s);
      UnderscoredEnds(Words(s));
    }
  }
}
