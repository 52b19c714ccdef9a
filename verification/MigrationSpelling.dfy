/** The names of migration files as texts: exactly which names are read as which version, name and
    direction (migrate/migrate.go). */
module MigrationSpelling {
  import opened Strings
  import opened Migrations
  import opened MigrationNames

  // A sign or none, digits, a name, and perhaps a dialect: `0001_init.up.sql`, `+7_x.pg.down.sql`.
  datatype Written = Written(sign: string, digits: string, name: string, dialect: Option<string>)

  predicate WellWritten(w: Written) {
    && (w.sign == "" || w.sign == "+" || w.sign == "-")
    && AllDigits(w.digits) && w.name != "" && Plain(w.name)
    && (w.dialect.Some? ==> Plain(w.dialect.value))
    && InRange(VersionOf(w))
  }

  function VersionOf(w: Written): int
    requires AllDigits(w.digits)
  {
    if w.sign == "-" then 0 - DigitsValue(w.digits) else DigitsValue(w.digits)
  }

  // What fits into 64 bits.
  predicate InRange(n: int) {
    -0x8000_0000_0000_0000 <= n <= 0x7FFF_FFFF_FFFF_FFFF
  }

  function TextOf(w: Written, dir: Direction): string {
    w.sign + w.digits + "_" + w.name + (if w.dialect.Some? then "." + w.dialect.value else "")
    + (if dir.Upward? then ".up.sql" else ".down.sql")
  }

  predicate ForDialect(w: Written, dialect: string) {
    w.dialect.Some? && dialect != "" ==> w.dialect.value == dialect
  }

  // ---------------------------------------------------------------- reading numbers

  lemma {:induction false} ZeroInFront(s: string)
    requires AllDigits(s)
    ensures AllDigits("0" + s) && DigitsValue("0" + s) == DigitsValue(s)
  {
    var t := "0" + s;
    assert t[|t| - 1] == s[|s| - 1] && t[..|t| - 1] == "0" + s[..|s| - 1];
    if |s| > 1 {
      assert forall i :: 0 <= i < |s| - 1 ==> s[..|s| - 1][i] == s[i];
      ZeroInFront(s[..|s| - 1]);
    } else {
      assert s[..|s| - 1] == [] && "0" + [] == "0";
      assert DigitsValue("0") == 10 * DigitsValue([]) + 0 by {
        assert "0"[..0] == [];
      }
    }
  }

  lemma AtoiReads(sign: string, digits: string)
    requires (sign == "" || sign == "+" || sign == "-") && AllDigits(digits)
    ensures var n := if sign == "-" then 0 - DigitsValue(digits) else DigitsValue(digits);
            Atoi(sign + digits) == if InRange(n) then Some(n) else None
  {
    var s := sign + digits;
    assert IsDigit(digits[0]);
    if sign == "" {
      assert s == digits;
    } else {
      assert s[0] == sign[0] && s[1..] == digits;
    }
  }

  lemma AtoiWritten(s: string) returns (sign: string, digits: string)
    requires Atoi(s).Some?
    ensures sign + digits == s && (sign == "" || sign == "+" || sign == "-") && AllDigits(digits)
  {
    if s != [] && (s[0] == '+' || s[0] == '-') {
      sign, digits := if s[0] == '+' then "+" else "-", s[1..];
      assert s == sign + digits;
    } else {
      sign, digits := "", s;
    }
  }

  // ---------------------------------------------------------------- cutting texts

  lemma {:induction false} IndexMeans(s: string, c: char)
    ensures match IndexOf(s, c)
            case None => c !in s
            case Some(i) => i < |s| && s[i] == c && c !in s[..i]
  {
    if s != [] && s[0] != c {
      IndexMeans(s[1..], c);
      assert s == [s[0]] + s[1..];
      match IndexOf(s[1..], c)
      case None =>
      case Some(i) => assert s[..i + 1] == [s[0]] + s[1..][..i];
    }
  }

  // The first piece, and the text after its separator.
  lemma {:induction false} FirstPiece(s: string, sep: char) returns (rest: string)
    ensures Split(s, sep) != [] && sep !in Split(s, sep)[0]
    ensures |Split(s, sep)| == 1 ==> s == Split(s, sep)[0]
    ensures |Split(s, sep)| > 1 ==> s == Split(s, sep)[0] + [sep] + rest && Split(rest, sep) == Split(s, sep)[1..]
  {
    rest := "";
    if s != [] {
      var r := FirstPiece(s[1..], sep);
      assert s == [s[0]] + s[1..];
      rest := if s[0] == sep then s[1..] else r;
    }
  }

  // ---------------------------------------------------------------- from texts to names

  lemma NumberLacks(sign: string, digits: string, c: char)
    requires (sign == "" || sign == "+" || sign == "-") && AllDigits(digits) && c != '+' && c != '-' && !IsDigit(c)
    ensures c !in sign + digits
  {
    assert c !in sign && c !in digits;
  }

  lemma StemReads(w: Written)
    requires WellWritten(w)
    ensures ParseStem(w.sign + w.digits + "_" + w.name) == Some((VersionOf(w), w.name))
  {
    var front := w.sign + w.digits;
    AtoiReads(w.sign, w.digits);
    NumberLacks(w.sign, w.digits, '_');
    IndexAfter(front, '_', w.name);
    var stem := front + "_" + w.name;
    assert stem[..|front|] == front && stem[|front| + 1..] == w.name;
  }

  lemma StemIsPlain(w: Written)
    requires WellWritten(w)
    ensures Plain(w.sign + w.digits + "_" + w.name)
  {
    NumberLacks(w.sign, w.digits, '.');
    NumberLacks(w.sign, w.digits, '/');
  }

  lemma Suffix(left: string, dir: Direction)
    ensures left + (if dir.Upward? then ".up.sql" else ".down.sql") == left + "." + Word(dir) + ".sql"
  {
  }

  lemma Rejoined(w: Written, stem: string, middle: string, dir: Direction, trim: string)
    requires stem == w.sign + w.digits + "_" + w.name && trim == stem + middle + "." + Word(dir)
    requires middle == if w.dialect.Some? then "." + w.dialect.value else ""
    ensures TextOf(w, dir) == trim + ".sql"
  {
    Suffix(stem + middle, dir);
  }

  lemma DialectPiece(stem: string, d: string, word: string)
    ensures stem + ("." + d) + "." + word == stem + "." + d + "." + word
  {
  }

  /** Every well-written name is read as its version, name and direction, whatever the zeros in front of
      the number, by every dialect it is for; one for another dialect is not read. */
  lemma WrittenIsRead(w: Written, dir: Direction, dialect: string)
    requires WellWritten(w)
    ensures ParseFileName(TextOf(w, dir), dialect) ==
            if ForDialect(w, dialect) then Some(Parsed(VersionOf(w), w.name, dir)) else None
  {
    var stem := w.sign + w.digits + "_" + w.name;
    StemReads(w);
    StemIsPlain(w);
    StemRead(w, stem, dir, dialect);
  }

  lemma StemRead(w: Written, stem: string, dir: Direction, dialect: string)
    requires stem == w.sign + w.digits + "_" + w.name && Plain(stem) && (w.dialect.Some? ==> Plain(w.dialect.value))
    ensures ParseFileName(TextOf(w, dir), dialect) == if ForDialect(w, dialect) then WithDir(ParseStem(stem), dir) else None
  {
    if w.dialect.Some? {
      var d := w.dialect.value;
      DialectPiece(stem, d, Word(dir));
      Rejoined(w, stem, "." + d, dir, stem + "." + d + "." + Word(dir));
      SpecificParses(stem, d, dir, dialect);
    } else {
      assert stem + "" == stem;
      Rejoined(w, stem, "", dir, stem + "." + Word(dir));
      GenericParses(stem, dir, dialect);
    }
  }

  // ---------------------------------------------------------------- from names to texts

  lemma StemCut(stem: string) returns (front: string, name: string)
    requires ParseStem(stem).Some?
    ensures stem == front + "_" + name && name != ""
    ensures Atoi(front).Some? && ParseStem(stem) == Some((Atoi(front).value, name))
  {
    IndexMeans(stem, '_');
    var i := IndexOf(stem, '_').value;
    front, name := stem[..i], stem[i + 1..];
    assert stem == stem[..i] + [stem[i]] + stem[i + 1..];
  }

  lemma StemWritten(stem: string) returns (w: Written)
    requires ParseStem(stem).Some? && Plain(stem)
    ensures WellWritten(w) && w.dialect == None && stem == w.sign + w.digits + "_" + w.name
    ensures ParseStem(stem) == Some((VersionOf(w), w.name))
  {
    var front, name := StemCut(stem);
    PlainTail(front + "_", name);
    var sign, digits := AtoiWritten(front);
    AtoiReads(sign, digits);
    w := Written(sign, digits, name, None);
  }

  lemma PlainTail(a: string, b: string)
    ensures Plain(a + b) ==> Plain(b)
  {
    assert forall c :: c in b ==> c in a + b;
  }

  lemma TrimmedName(f: string, dialect: string) returns (trim: string)
    requires '/' !in f && ParseFileName(f, dialect).Some?
    ensures f == trim + ".sql" && TrimSuffix(Base(f), ".sql") == Some(trim)
  {
    if f != "" {
      BasePlain(f);
    }
    trim := TrimSuffix(Base(f), ".sql").value;
  }

  lemma DirectionWord(word: string)
    requires DirectionOf(word).Some?
    ensures word == Word(DirectionOf(word).value)
  {
  }

  lemma TwoPieces(trim: string)
    requires |Split(trim, '.')| == 2
    ensures var parts := Split(trim, '.'); trim == parts[0] + "." + parts[1] == parts[0] + "" + "." + parts[1] && '.' !in parts[0]
  {
    var rest := FirstPiece(trim, '.');
    var none := FirstPiece(rest, '.');
  }

  lemma ThreePieces(trim: string)
    requires |Split(trim, '.')| == 3
    ensures var parts := Split(trim, '.');
            && trim == parts[0] + ("." + parts[1]) + "." + parts[2] == parts[0] + ("." + parts[1]) + ("." + parts[2]) && '.' !in parts[0] && '.' !in parts[1]
  {
    var rest := FirstPiece(trim, '.');
    TwoPieces(rest);
    var parts := Split(trim, '.');
    Regrouped(parts[0], parts[1], parts[2]);
  }

  lemma Regrouped(a: string, b: string, c: string)
    ensures a + "." + (b + "." + c) == a + ("." + b) + "." + c
  {
  }

  lemma WithoutSlash(a: string, b: string, c: string)
    requires '/' !in a + b + c
    ensures '/' !in a && '/' !in b && '/' !in c
  {
    assert forall x :: x in a ==> x in a + b + c;
    assert forall x :: x in b ==> x in a + b + c;
    assert forall x :: x in c ==> x in a + b + c;
  }

  lemma StemOf(stem: string, middle: string, p: Parsed, trim: string, d: Option<string>) returns (w: Written)
    requires Plain(stem) && ParseStem(stem) == Some((p.version, p.name)) && trim == stem + middle + "." + Word(p.dir)
    requires (d.Some? ==> Plain(d.value)) && middle == if d.Some? then "." + d.value else ""
    ensures WellWritten(w) && w.dialect == d && trim + ".sql" == TextOf(w, p.dir) && p.version == VersionOf(w) && p.name == w.name
  {
    w := StemWritten(stem);
    w := w.(dialect := d);
    Rejoined(w, stem, middle, p.dir, trim);
  }

  // A name cut at its dots is a stem, perhaps a dialect, and a direction.
  lemma PiecesWritten(trim: string, dialect: string, p: Parsed) returns (w: Written)
    requires '/' !in trim && (|Split(trim, '.')| == 2 || |Split(trim, '.')| == 3)
    requires var parts := Split(trim, '.');
             && DirectionOf(parts[|parts| - 1]) == Some(p.dir) && ParseStem(parts[0]) == Some((p.version, p.name))
             && (|parts| == 3 && dialect != "" ==> parts[1] == dialect)
    ensures WellWritten(w) && ForDialect(w, dialect) && trim + ".sql" == TextOf(w, p.dir) && p.version == VersionOf(w) && p.name == w.name
  {
    var parts := Split(trim, '.');
    DirectionWord(parts[|parts| - 1]);
    if |parts| == 3 {
      ThreePieces(trim);
      WithoutSlash(parts[0], "." + parts[1], "." + parts[2]);
      WithoutSlash(".", parts[1], "");
      w := StemOf(parts[0], "." + parts[1], p, trim, Some(parts[1]));
    } else {
      TwoPieces(trim);
      WithoutSlash(parts[0], ".", parts[1]);
      w := StemOf(parts[0], "", p, trim, None);
    }
  }

  /** Only well-written names are read. */
  lemma ReadIsWritten(f: string, dialect: string) returns (w: Written)
    requires '/' !in f && ParseFileName(f, dialect).Some?
    ensures var p := ParseFileName(f, dialect).value;
            WellWritten(w) && ForDialect(w, dialect) && f == TextOf(w, p.dir) && p.version == VersionOf(w) && p.name == w.name
  {
    var trim := TrimmedName(f, dialect);
    WithoutSlash(trim, ".sql", "");
    w := PiecesWritten(trim, dialect, ParseFileName(f, dialect).value);
  }

  // ---------------------------------------------------------------- the whole characterisation

  /** A file name is read as a version, a name and a direction exactly when it is written that way: an
      optional sign, digits whose value it is and which fits 64 bits, an underscore, the name, perhaps the
      dialect, and the direction. */
  lemma ReadsExactlyWritten(f: string, dialect: string, version: int, name: string, dir: Direction)
    requires '/' !in f
    ensures ParseFileName(f, dialect) == Some(Parsed(version, name, dir)) <==>
            exists w :: WellWritten(w) && ForDialect(w, dialect) && f == TextOf(w, dir) && version == VersionOf(w) && name == w.name
  {
    if ParseFileName(f, dialect) == Some(Parsed(version, name, dir)) {
      var w := ReadIsWritten(f, dialect);
    }
    if w :| WellWritten(w) && ForDialect(w, dialect) && f == TextOf(w, dir) && version == VersionOf(w) && name == w.name {
      WrittenIsRead(w, dir, dialect);
    }
  }

  lemma SameReading(v: Written, w: Written, dir: Direction, dialect: string)
    requires WellWritten(v) && WellWritten(w) && VersionOf(v) == VersionOf(w) && v.name == w.name && v.dialect == w.dialect
    ensures ParseFileName(TextOf(v, dir), dialect) == ParseFileName(TextOf(w, dir), dialect)
  {
    WrittenIsRead(v, dir, dialect);
    WrittenIsRead(w, dir, dialect);
  }

  /** Zeros in front of the number change nothing: `0001_init.up.sql` is version 1. */
  lemma ZerosInFront(w: Written, dir: Direction, dialect: string)
    requires WellWritten(w)
    ensures ParseFileName(TextOf(w.(digits := "0" + w.digits), dir), dialect) == ParseFileName(TextOf(w, dir), dialect)
  {
    ZeroInFront(w.digits);
    SameReading(w.(digits := "0" + w.digits), w, dir, dialect);
  }

  lemma FourDigits()
    ensures AllDigits("0001") && DigitsValue("0001") == 1
  {
    assert "1"[..0] == [] && DigitsValue([]) == 0;
    assert DigitsValue("1") == 1;
    ZeroInFront("1");
    assert "0" + "1" == "01";
    ZeroInFront("01");
    assert "0" + "01" == "001";
    ZeroInFront("001");
    assert "0" + "001" == "0001";
  }

  lemma DocumentedText(w: Written)
    requires w == Written("", "0001", "init", None)
    ensures TextOf(w, Upward) == "0001_init.up.sql"
  {
  }

  /** The file name that the documentation of Load gives. */
  lemma DocumentedName(dialect: string)
    ensures ParseFileName("0001_init.up.sql", dialect) == Some(Parsed(1, "init", Upward))
  {
    var w := Written("", "0001", "init", None);
    FourDigits();
    DocumentedText(w);
    WrittenIsRead(w, Upward, dialect);
  }

  lemma {:induction false} AfterSlash(dir: string, f: string)
    requires '/' !in f
    ensures AfterLastSlash(dir + "/" + f) == f
  {
    var s := dir + "/" + f;
    if f != [] {
      assert f[|f| - 1] in f && s[|s| - 1] == f[|f| - 1];
      assert s[..|s| - 1] == dir + "/" + f[..|f| - 1];
      AfterSlash(dir, f[..|f| - 1]);
    }
  }

  /** The directory in front of a file name does not matter. */
  lemma DirectoryIgnored(dir: string, f: string, dialect: string)
    requires f != "" && '/' !in f
    ensures ParseFileName(dir + "/" + f, dialect) == ParseFileName(f, dialect)
  {
    var s := dir + "/" + f;
    assert s[|s| - 1] == f[|f| - 1] && f[|f| - 1] in f;
    AfterSlash(dir, f);
    BasePlain(f);
  }

  /** What is printed for a number has no zero in front, but for zero itself. */
  lemma {:induction false} PrintedWithoutZeros(n: nat)
    ensures AllDigits(Itoa(n)) && DigitsValue(Itoa(n)) == n && (Itoa(n)[0] == '0' <==> n == 0)
  {
    ItoaDigits(n);
    if n >= 10 {
      PrintedWithoutZeros(n / 10);
      assert Itoa(n)[0] == Itoa(n / 10)[0];
    }
  }
}
