/** Names of migration files: normalising, printing and parsing them (migrate/generate.go,
    migrate/migrate.go). */
module MigrationNames {
  import opened Strings
  import opened Migrations
  import Routes

  // ---------------------------------------------------------------- numbers in text

  const MaxInt := 0x7FFF_FFFF_FFFF_FFFF

  predicate AllDigits(s: string) {
    s != "" && forall i :: 0 <= i < |s| ==> IsDigit(s[i])
  }

  // strconv.Atoi: an optional sign, then digits, within 64 bits.
  function Atoi(s: string): Option<int> {
    var digits := if s != [] && (s[0] == '+' || s[0] == '-') then s[1..] else s;
    if !AllDigits(digits) then None
    else
      var n := if s[0] == '-' then 0 - DigitsValue(digits) else DigitsValue(digits);
      if -MaxInt - 1 <= n <= MaxInt then Some(n) else None
  }

  lemma AtoiItoa(n: nat)
    requires n <= MaxInt
    ensures Atoi(Itoa(n)) == Some(n)
  {
    ItoaDigits(n);
    assert IsDigit(Itoa(n)[0]);
  }

  // ---------------------------------------------------------------- normalised names

  predicate NameChar(c: char) {
    'a' <= c <= 'z' || IsDigit(c)
  }

  // Letters and digits stay, every run of other characters becomes one underscore.
  function Squeezed(s: string): string {
    if s == [] then []
    else
      var b, c := Squeezed(s[..|s| - 1]), s[|s| - 1];
      if NameChar(c) then b + [c]
      else if b != [] && b[|b| - 1] == '_' then b
      else b + "_"
  }

  function TrimUnderscoresLeft(s: string): string {
    if s != [] && s[0] == '_' then TrimUnderscoresLeft(s[1..]) else s
  }

  function TrimUnderscoresRight(s: string): string {
    if s != [] && s[|s| - 1] == '_' then TrimUnderscoresRight(s[..|s| - 1]) else s
  }

  function Normalized(name: string): string {
    var out := TrimUnderscoresRight(TrimUnderscoresLeft(Squeezed(TrimSpace(ToLower(name)))));
    if out == "" then "autogen" else out
  }

  // Runs of letters and digits, joined by single underscores.
  predicate Tidy(s: string) {
    && (forall i :: 0 <= i < |s| ==> NameChar(s[i]) || s[i] == '_')
    && (forall i :: 0 <= i < |s| - 1 ==> !(s[i] == '_' && s[i + 1] == '_'))
  }

  predicate IsNormal(s: string) {
    s != [] && Tidy(s) && s[0] != '_' && s[|s| - 1] != '_'
  }

  method NormalizeName(name: string) returns (r: string)
    ensures r == Normalized(name) && IsNormal(r)
  {
    NormalizedIsNormal(name);
    var lower := TrimSpace(ToLower(name));
    if lower == "" {
      return "autogen";
    }
    var b := "";
    var lastUnderscore := false;
    for i := 0 to |lower|
      invariant b == Squeezed(lower[..i])
      invariant lastUnderscore <==> b != [] && b[|b| - 1] == '_'
    {
      assert lower[..i + 1][..i] == lower[..i];
      if NameChar(lower[i]) {
        b := b + [lower[i]];
        lastUnderscore := false;
        continue;
      }
      if !lastUnderscore {
        b := b + "_";
        lastUnderscore := true;
      }
    }
    assert lower[..|lower|] == lower;
    var out := TrimUnderscoresRight(TrimUnderscoresLeft(b));
    if out == "" {
      return "autogen";
    }
    return out;
  }

  lemma {:induction false} SqueezedTidy(s: string)
    ensures Tidy(Squeezed(s))
  {
    if s != [] {
      SqueezedTidy(s[..|s| - 1]);
    }
  }

  lemma {:induction false} TrimmedTidy(s: string)
    requires Tidy(s)
    ensures Tidy(TrimUnderscoresLeft(s)) && (TrimUnderscoresLeft(s) != [] ==> TrimUnderscoresLeft(s)[0] != '_')
  {
    if s != [] && s[0] == '_' {
      TrimmedTidy(s[1..]);
    }
  }

  lemma {:induction false} TrimmedRightTidy(s: string)
    requires Tidy(s) && (s != [] ==> s[0] != '_')
    ensures TrimUnderscoresRight(s) != [] ==> IsNormal(TrimUnderscoresRight(s))
  {
    if s != [] && s[|s| - 1] == '_' {
      TrimmedRightTidy(s[..|s| - 1]);
    }
  }

  lemma {:induction false} NormalizedIsNormal(name: string)
    ensures IsNormal(Normalized(name))
  {
    var b := Squeezed(TrimSpace(ToLower(name)));
    SqueezedTidy(TrimSpace(ToLower(name)));
    TrimmedTidy(b);
    TrimmedRightTidy(TrimUnderscoresLeft(b));
  }

  lemma {:induction false} TidyStays(s: string)
    requires Tidy(s)
    ensures Squeezed(s) == s
  {
    if s != [] {
      TidyStays(s[..|s| - 1]);
    }
  }

  /** The normal names are exactly the fixed points, so normalising twice changes nothing more. */
  lemma {:induction false} NormalIffFixed(s: string)
    ensures IsNormal(s) <==> Normalized(s) == s
    ensures Normalized(Normalized(s)) == Normalized(s)
  {
    NormalizedIsNormal(s);
    NormalStays(Normalized(s));
    if IsNormal(s) {
      NormalStays(s);
    }
  }

  lemma {:induction false} NormalStays(s: string)
    requires IsNormal(s)
    ensures Normalized(s) == s
  {
    assert ToLower(s) == s;
    assert TrimLeft(s) == s && TrimRight(s) == s;
    TidyStays(s);
  }

  // ---------------------------------------------------------------- file names

  datatype Parsed = Parsed(version: int, name: string, dir: Direction)

  // filepath.Base
  function Base(path: string): string {
    var t := Routes.TrimSlashesRight(path);
    if path == "" then "." else if t == "" then "/" else AfterLastSlash(t)
  }

  function AfterLastSlash(s: string): string {
    if s == [] || s[|s| - 1] == '/' then [] else AfterLastSlash(s[..|s| - 1]) + [s[|s| - 1]]
  }

  function TrimSuffix(s: string, suffix: string): Option<string> {
    if |s| >= |suffix| && s[|s| - |suffix|..] == suffix then Some(s[..|s| - |suffix|]) else None
  }

  // strings.Index for one character.
  function IndexOf(s: string, c: char): Option<nat> {
    if s == [] then None
    else if s[0] == c then Some(0)
    else match IndexOf(s[1..], c) case None => None case Some(i) => Some(i + 1)
  }

  function DirectionOf(word: string): Option<Direction> {
    if word == "up" then Some(Upward) else if word == "down" then Some(Downward) else None
  }

  // `<version>_<name>`
  function ParseStem(left: string): Option<(int, string)> {
    match IndexOf(left, '_')
    case None => None
    case Some(i) =>
      if 1 <= i < |left| - 1 then
        match Atoi(left[..i])
        case None => None
        case Some(v) => Some((v, left[i + 1..]))
      else None
  }

  function ParseFileName(filename: string, dialect: string): Option<Parsed> {
    match TrimSuffix(Base(filename), ".sql")
    case None => None
    case Some(trim) =>
      var parts := Split(trim, '.');
      if |parts| != 2 && |parts| != 3 then None
      else match DirectionOf(parts[|parts| - 1])
        case None => None
        case Some(dir) =>
          if |parts| == 3 && dialect != "" && parts[1] != dialect then None
          else match ParseStem(parts[0])
            case None => None
            case Some((v, name)) => Some(Parsed(v, name, dir))
  }

  function Word(dir: Direction): string {
    if dir.Upward? then "up" else "down"
  }

  // "%d_%s.up.sql", "%d_%s.down.sql"
  function FileName(version: nat, name: string, dir: Direction): string {
    Itoa(version) + "_" + name + "." + Word(dir) + ".sql"
  }

  predicate Plain(s: string) {
    '.' !in s && '/' !in s
  }

  lemma {:induction false} AfterLastSlashPlain(s: string)
    requires '/' !in s
    ensures AfterLastSlash(s) == s
  {
    if s != [] {
      assert s[|s| - 1] in s;
      AfterLastSlashPlain(s[..|s| - 1]);
    }
  }

  lemma BasePlain(s: string)
    requires s != [] && '/' !in s
    ensures Base(s) == s
  {
    assert s[|s| - 1] in s;
    AfterLastSlashPlain(s);
  }

  function WithDir(stem: Option<(int, string)>, dir: Direction): Option<Parsed> {
    match stem
    case None => None
    case Some((v, name)) => Some(Parsed(v, name, dir))
  }

  lemma SqlTrimmed(trim: string)
    requires '/' !in trim
    ensures TrimSuffix(Base(trim + ".sql"), ".sql") == Some(trim)
  {
    BasePlain(trim + ".sql");
    assert (trim + ".sql")[|trim|..] == ".sql";
  }

  lemma SplitWord(dir: Direction)
    ensures Split(Word(dir), '.') == [Word(dir)] && DirectionOf(Word(dir)) == Some(dir)
  {
    SplitWhole(Word(dir), '.');
  }

  // A name without a dialect is read whatever the dialect.
  lemma GenericParses(left: string, dir: Direction, dialect: string)
    requires Plain(left)
    ensures ParseFileName(left + "." + Word(dir) + ".sql", dialect) == WithDir(ParseStem(left), dir)
  {
    SqlTrimmed(left + "." + Word(dir));
    SplitFirst(left, '.', Word(dir));
    SplitWord(dir);
  }

  // A name with a dialect is read under that dialect, or when none is given.
  lemma SpecificParses(left: string, d: string, dir: Direction, dialect: string)
    requires Plain(left) && Plain(d)
    ensures ParseFileName(left + "." + d + "." + Word(dir) + ".sql", dialect) ==
            if dialect == "" || dialect == d then WithDir(ParseStem(left), dir) else None
  {
    var tail := d + "." + Word(dir);
    assert left + "." + d + "." + Word(dir) == left + "." + tail;
    SqlTrimmed(left + "." + tail);
    SplitFirst(left, '.', tail);
    SplitFirst(d, '.', Word(dir));
    SplitWord(dir);
  }

  lemma {:induction false} IndexAfter(a: string, c: char, b: string)
    requires c !in a
    ensures IndexOf(a + [c] + b, c) == Some(|a|)
  {
    if a == [] {
      assert (a + [c] + b)[0] == c;
    } else {
      IndexAfter(a[1..], c, b);
      assert (a + [c] + b)[1..] == a[1..] + [c] + b;
    }
  }

  lemma StemParses(version: nat, name: string)
    requires version <= MaxInt && name != ""
    ensures ParseStem(Itoa(version) + "_" + name) == Some((version, name))
  {
    ItoaDigits(version);
    AtoiItoa(version);
    var digits := Itoa(version);
    assert '_' !in digits;
    IndexAfter(digits, '_', name);
    var stem := digits + "_" + name;
    assert stem[..|digits|] == digits && stem[|digits| + 1..] == name;
  }

  lemma StemPlain(version: nat, name: string)
    requires Plain(name)
    ensures Plain(Itoa(version) + "_" + name)
  {
    ItoaDigits(version);
  }

  /** Parsing a printed file name gives back version, name and direction under every dialect. */
  lemma FileNameRoundTrip(version: nat, name: string, dir: Direction, dialect: string)
    requires version <= MaxInt && name != "" && Plain(name)
    ensures ParseFileName(FileName(version, name, dir), dialect) == Some(Parsed(version, name, dir))
  {
    StemPlain(version, name);
    StemParses(version, name);
    GenericParses(Itoa(version) + "_" + name, dir, dialect);
  }
}
