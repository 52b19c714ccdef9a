/** Words as a reader of the documentation knows them: letters in any case with blanks around them.
    Trimming and changing case compares exactly these. */
module Spelling {
  import opened Strings

  predicate Blank(c: char) {
    c as int in [9, 10, 11, 12, 13, 32, 0x85, 0xA0]
  }

  predicate Blanks(s: string) {
    forall i :: 0 <= i < |s| ==> Blank(s[i])
  }

  // The letter or digit `l` of a word, in either case.
  predicate SameLetter(c: char, l: char) {
    c == l || ('a' <= l <= 'z' && c as int == l as int - 32)
  }

  predicate AnyCase(s: string, word: string) {
    |s| == |word| && forall i :: 0 <= i < |s| ==> SameLetter(s[i], word[i])
  }

  // The text, with blanks around it.
  ghost predicate Padded(key: string, text: string) {
    exists i, j :: 0 <= i <= j <= |key| && key[i..j] == text && Blanks(key[..i]) && Blanks(key[j..])
  }

  // The word, in any case and with blanks around it.
  ghost predicate Spells(key: string, word: string) {
    exists i, j :: 0 <= i <= j <= |key| && AnyCase(key[i..j], word) && Blanks(key[..i]) && Blanks(key[j..])
  }

  predicate Word(word: string) {
    word != [] && forall i :: 0 <= i < |word| ==> 'a' <= word[i] <= 'z' || IsDigit(word[i])
  }

  // ---------------------------------------------------------------- trimming

  predicate Bare(s: string) {
    s == [] || (!Blank(s[0]) && !Blank(s[|s| - 1]))
  }

  lemma {:induction false} LeftTrimmed(s: string) returns (i: nat)
    ensures i <= |s| && TrimLeft(s) == s[i..] && Blanks(s[..i]) && (i < |s| ==> !Blank(s[i]))
  {
    if s != [] && Blank(s[0]) {
      i := LeftTrimmed(s[1..]);
      assert s[..i + 1] == [s[0]] + s[1..][..i];
      i := i + 1;
    } else {
      i := 0;
    }
  }

  lemma {:induction false} RightTrimmed(s: string) returns (j: nat)
    ensures j <= |s| && TrimRight(s) == s[..j] && Blanks(s[j..]) && (j > 0 ==> !Blank(s[j - 1]))
  {
    if s != [] && Blank(s[|s| - 1]) {
      j := RightTrimmed(s[..|s| - 1]);
      assert s[j..] == s[..|s| - 1][j..] + [s[|s| - 1]];
    } else {
      j := |s|;
    }
  }

  // A text is blanks, what trimming leaves, and blanks.
  lemma {:induction false} TrimmedParts(s: string) returns (i: nat, j: nat)
    ensures i <= j <= |s| && TrimSpace(s) == s[i..j] && Blanks(s[..i]) && Blanks(s[j..]) && Bare(s[i..j])
  {
    i := LeftTrimmed(s);
    var k := RightTrimmed(s[i..]);
    j := i + k;
    assert s[i..][..k] == s[i..j] && s[i..][k..] == s[j..];
  }

  lemma {:induction false} OnlyOneCore(s: string, i: nat, j: nat, m: nat, n: nat)
    requires i <= j <= |s| && Blanks(s[..i]) && Blanks(s[j..]) && Bare(s[i..j])
    requires m <= n <= |s| && Blanks(s[..m]) && Blanks(s[n..]) && Bare(s[m..n])
    ensures s[i..j] == s[m..n]
  {
    assert forall k :: 0 <= k < i ==> Blank(s[..i][k]);
    assert forall k :: 0 <= k < m ==> Blank(s[..m][k]);
    assert forall k :: 0 <= k < |s| - j ==> s[j..][k] == s[j + k];
    assert forall k :: 0 <= k < |s| - n ==> s[n..][k] == s[n + k];
    assert j < |s| ==> Blank(s[j..][|s| - 1 - j]);
    assert j < n ==> Blank(s[j..][n - 1 - j]);
    assert n < j ==> Blank(s[n..][j - 1 - n]);
    assert i < j ==> s[i] == s[i..j][0] && s[j - 1] == s[i..j][j - i - 1];
    assert m < n ==> s[m] == s[m..n][0] && s[n - 1] == s[m..n][n - m - 1];
  }

  lemma TrimMeans(key: string, text: string)
    requires Bare(text)
    ensures TrimSpace(key) == text <==> Padded(key, text)
  {
    var i, j := TrimmedParts(key);
    if m, n :| 0 <= m <= n <= |key| && key[m..n] == text && Blanks(key[..m]) && Blanks(key[n..]) {
      OnlyOneCore(key, i, j, m, n);
    }
  }

  // ---------------------------------------------------------------- changing case

  lemma LowerMeans(s: string, word: string)
    requires Word(word)
    ensures ToLower(s) == word <==> AnyCase(s, word)
  {
    if ToLower(s) == word {
      forall i | 0 <= i < |s| ensures SameLetter(s[i], word[i]) {
        assert LowerChar(s[i]) == word[i];
      }
    }
    if AnyCase(s, word) {
      forall i | 0 <= i < |s| ensures LowerChar(s[i]) == word[i] {
        assert SameLetter(s[i], word[i]);
      }
    }
  }

  lemma UpperMeans(s: string, up: string, word: string)
    requires |up| == |word| && forall i :: 0 <= i < |up| ==> 'a' <= word[i] <= 'z' && up[i] as int == word[i] as int - 32
    ensures ToUpper(s) == up <==> AnyCase(s, word)
  {
    if ToUpper(s) == up {
      forall i | 0 <= i < |s| ensures SameLetter(s[i], word[i]) {
        assert UpperChar(s[i]) == up[i];
      }
    }
    if AnyCase(s, word) {
      forall i | 0 <= i < |s| ensures UpperChar(s[i]) == up[i] {
        assert SameLetter(s[i], word[i]);
      }
    }
  }

  lemma SpelledBare(s: string, word: string)
    requires Word(word) && AnyCase(s, word)
    ensures Bare(s)
  {
    assert SameLetter(s[0], word[0]) && SameLetter(s[|s| - 1], word[|word| - 1]);
  }

  // What is left after trimming is the word in any case.
  lemma TrimmedSpells(key: string, word: string)
    requires Word(word)
    ensures AnyCase(TrimSpace(key), word) <==> Spells(key, word)
  {
    var i, j := TrimmedParts(key);
    if m, n :| 0 <= m <= n <= |key| && AnyCase(key[m..n], word) && Blanks(key[..m]) && Blanks(key[n..]) {
      SpelledBare(key[m..n], word);
      OnlyOneCore(key, i, j, m, n);
    }
  }

  /** Trimming and lowering a key gives a word exactly when the key spells it. */
  lemma LoweredSpells(key: string, word: string)
    requires Word(word)
    ensures ToLower(TrimSpace(key)) == word <==> Spells(key, word)
  {
    TrimmedSpells(key, word);
    LowerMeans(TrimSpace(key), word);
  }

  lemma RaisedSpells(key: string, up: string, word: string)
    requires Word(word) && |up| == |word|
    requires forall i :: 0 <= i < |up| ==> 'a' <= word[i] <= 'z' && up[i] as int == word[i] as int - 32
    ensures ToUpper(TrimSpace(key)) == up <==> Spells(key, word)
  {
    TrimmedSpells(key, word);
    UpperMeans(TrimSpace(key), up, word);
  }

  // ---------------------------------------------------------------- names of columns and tables

  // A to Z, a to z and the underscore by their code points.
  predicate Letter(c: char) {
    65 <= c as int <= 90 || 97 <= c as int <= 122 || c as int == 95
  }

  predicate Digit(c: char) {
    48 <= c as int <= 57
  }

  /** A name is valid exactly when what is left after trimming is letters, digits and underscores, at
      least one, and does not start with a digit. */
  lemma NamesAccepted(name: string, text: string)
    ensures ValidIdentifier(name) == Ok(text) <==>
            Padded(name, text) && text != "" && !Digit(text[0]) && forall i :: 0 <= i < |text| ==> Letter(text[i]) || Digit(text[i])
    ensures ValidIdentifier(name).Err? ==> ValidIdentifier(name) == Err(InvalidInput)
  {
    if text != "" {
      assert IsIdent(text) <==> !Digit(text[0]) && forall i :: 0 <= i < |text| ==> Letter(text[i]) || Digit(text[i]);
      assert Blank(text[0]) ==> !Letter(text[0]) && !Digit(text[0]);
      assert Blank(text[|text| - 1]) ==> !Letter(text[|text| - 1]) && !Digit(text[|text| - 1]);
      if Bare(text) {
        TrimMeans(name, text);
      }
    }
  }
}
