/** Writing a generated pair of migration files and loading a directory of them
    (migrate/generate.go, migrate/loader.go). */
module MigrationFiles {
  import opened Strings
  import opened Migrations
  import opened MigrationNames

  // ---------------------------------------------------------------- generated text

  // A table of the model and its CREATE TABLE statement.
  datatype Entity = Entity(table: string, create: string)

  function JoinLines(lines: seq<string>): string {
    if lines == [] then ""
    else if |lines| == 1 then lines[0]
    else lines[0] + "\n" + JoinLines(lines[1..])
  }

  function UpLines(es: seq<Entity>): seq<string> {
    seq(|es|, i requires 0 <= i < |es| => es[i].create + ";")
  }

  // Tables are dropped in the reverse of the order they are created in.
  function DownLines(es: seq<Entity>): seq<string> {
    seq(|es|, i requires 0 <= i < |es| => "DROP TABLE IF EXISTS " + es[|es| - 1 - i].table + ";")
  }

  method BuildScripts(es: seq<Entity>) returns (up: string, down: string)
    ensures up == JoinLines(UpLines(es)) + "\n" && down == JoinLines(DownLines(es)) + "\n"
  {
    var upLines: seq<string> := [];
    for i := 0 to |es|
      invariant upLines == UpLines(es)[..i]
    {
      upLines := upLines + [es[i].create + ";"];
    }
    var downLines: seq<string> := [];
    for i := |es| downto 0
      invariant downLines == DownLines(es)[..|es| - i]
    {
      downLines := downLines + ["DROP TABLE IF EXISTS " + es[i].table + ";"];
    }
    assert upLines == UpLines(es) && downLines == DownLines(es);
    return JoinLines(upLines) + "\n", JoinLines(downLines) + "\n";
  }

  // ---------------------------------------------------------------- a directory

  datatype Generated = Generated(version: nat, name: string, up: string, down: string)

  // Twice as many hexadecimal digits as random bytes.
  predicate IsToken(s: string) {
    |s| == 6 && forall i :: 0 <= i < |s| ==> IsDigit(s[i]) || 'a' <= s[i] <= 'f'
  }

  predicate Free(files: map<string, string>, version: nat, name: string) {
    FileName(version, name, Upward) !in files && FileName(version, name, Downward) !in files
  }

  // A pair of files has been added for the tables, under a name made from `name` that was free.
  ghost predicate Wrote(before: map<string, string>, after: map<string, string>, name: string, es: seq<Entity>, gen: Generated) {
    && (exists token :: IsToken(token) && gen.name == Normalized(name) + "_" + token)
    && gen.up == JoinLines(UpLines(es)) + "\n" && gen.down == JoinLines(DownLines(es)) + "\n"
    && Free(before, gen.version, gen.name)
    && after == before[FileName(gen.version, gen.name, Upward) := gen.up][FileName(gen.version, gen.name, Downward) := gen.down]
  }

  class Directory {
    var files: map<string, string>

    // The clock gives the version, the random source one token per attempt.
    method Generate(version: nat, name: string, es: seq<Entity>, tokens: seq<string>) returns (r: Option<Generated>)
      requires |tokens| == 16 && forall i :: 0 <= i < 16 ==> IsToken(tokens[i])
      modifies this
      ensures r.Some? ==> r.value.version == version && Wrote(old(files), files, name, es, r.value)
      ensures r.Some? ==> exists i :: 0 <= i < 16 && r.value.name == Normalized(name) + "_" + tokens[i]
      ensures r.None? ==>
                || files == old(files)
                || exists n :: Free(old(files), version, n) && files == old(files)[FileName(version, n, Upward) := JoinLines(UpLines(es)) + "\n"]
    {
      if es == [] {
        return None;
      }
      var up, down := BuildScripts(es);
      var base := NormalizeName(name);
      var finalName := base + "_" + tokens[0];
      var i := 0;
      while i < 16
        invariant 0 <= i <= 16
        invariant i < 16 || Free(files, version, finalName)
        invariant exists k :: 0 <= k < 16 && finalName == Normalized(name) + "_" + tokens[k]
        invariant files == old(files)
      {
        if * {
          return None;
        }
        finalName := base + "_" + tokens[i];
        if FileName(version, finalName, Upward) !in files && FileName(version, finalName, Downward) !in files {
          break;
        }
        if i == 15 {
          return None;
        }
        i := i + 1;
      }
      if * {
        return None;
      }
      files := files[FileName(version, finalName, Upward) := up];
      if * {
        if * {
          return None;
        }
        files := files - {FileName(version, finalName, Upward)};
        return None;
      }
      files := files[FileName(version, finalName, Downward) := down];
      return Some(Generated(version, finalName, up, down));
    }
  }

  lemma GeneratedNameIsPlain(name: string, token: string)
    requires IsToken(token)
    ensures var n := Normalized(name) + "_" + token; n != "" && Plain(n)
  {
    NormalizedIsNormal(name);
  }

  // ---------------------------------------------------------------- grouping a listing

  datatype File = File(name: string, isDir: bool, content: string)

  function Reads(f: File, dialect: string): Option<Parsed> {
    if f.isDir then None else ParseFileName(f.name, dialect)
  }

  predicate OfVersion(f: File, dialect: string, v: int) {
    Reads(f, dialect).Some? && Reads(f, dialect).value.version == v
  }

  predicate Holds(f: File, dialect: string, v: int, dir: Direction) {
    OfVersion(f, dialect, v) && Reads(f, dialect).value.dir == dir
  }

  function Absorb(g: map<int, Migration>, p: Parsed, content: string): map<int, Migration> {
    var m := if p.version in g then g[p.version] else Migration(p.version, p.name, "", "");
    g[p.version := if p.dir.Upward? then m.(up := content) else m.(down := content)]
  }

  function Grouped(fs: seq<File>, dialect: string): map<int, Migration> {
    if fs == [] then map[]
    else
      var g, p := Grouped(fs[..|fs| - 1], dialect), Reads(fs[|fs| - 1], dialect);
      if p.None? then g else Absorb(g, p.value, fs[|fs| - 1].content)
  }

  // The last file of that version and direction, and the name in the first file of that version.
  function LastText(fs: seq<File>, dialect: string, v: int, dir: Direction): string {
    if fs == [] then ""
    else if Holds(fs[|fs| - 1], dialect, v, dir) then fs[|fs| - 1].content
    else LastText(fs[..|fs| - 1], dialect, v, dir)
  }

  function FirstNameOf(fs: seq<File>, dialect: string, v: int): Option<string> {
    if fs == [] then None
    else
      var before, last := FirstNameOf(fs[..|fs| - 1], dialect, v), fs[|fs| - 1];
      if before.None? && OfVersion(last, dialect, v) then Some(Reads(last, dialect).value.name) else before
  }

  /** Each version is loaded with the name of its first file and, in each direction, the text of
      its last file. */
  lemma {:induction false} GroupedMeans(fs: seq<File>, dialect: string, v: int)
    ensures v in Grouped(fs, dialect) <==> FirstNameOf(fs, dialect, v).Some?
    ensures v in Grouped(fs, dialect) ==>
              Grouped(fs, dialect)[v] ==
              Migration(v, FirstNameOf(fs, dialect, v).value, LastText(fs, dialect, v, Upward), LastText(fs, dialect, v, Downward))
    ensures v !in Grouped(fs, dialect) ==> LastText(fs, dialect, v, Upward) == "" == LastText(fs, dialect, v, Downward)
  {
    if fs != [] {
      GroupedMeans(fs[..|fs| - 1], dialect, v);
    }
  }

  lemma {:induction false} GroupedStep(fs: seq<File>, i: nat, dialect: string)
    requires i < |fs|
    ensures Grouped(fs[..i + 1], dialect) ==
            var p := Reads(fs[i], dialect);
            if p.None? then Grouped(fs[..i], dialect) else Absorb(Grouped(fs[..i], dialect), p.value, fs[i].content)
  {
    assert fs[..i + 1][..i] == fs[..i];
  }

  datatype Loaded = Loaded(list: seq<Migration>) | ReadFailed | MissingUp(version: int)

  // The migrations of the group, ascending.
  ghost predicate Lists(list: seq<Migration>, g: map<int, Migration>) {
    && Strict(list)
    && (forall i :: 0 <= i < |list| ==> list[i].version in g && g[list[i].version] == list[i])
    && (forall v :: v in g ==> g[v] in list)
  }

  method GroupFiles(fs: seq<File>, dialect: string) returns (r: Option<map<int, Migration>>)
    ensures r.Some? ==> r.value == Grouped(fs, dialect)
    ensures r.None? ==> exists i :: 0 <= i < |fs| && Reads(fs[i], dialect).Some?
  {
    var byVersion: map<int, Migration> := map[];
    for i := 0 to |fs|
      invariant byVersion == Grouped(fs[..i], dialect)
    {
      GroupedStep(fs, i, dialect);
      if fs[i].isDir {
        continue;
      }
      var p := ParseFileName(fs[i].name, dialect);
      if p.None? {
        continue;
      }
      var m := if p.value.version in byVersion then byVersion[p.value.version] else Migration(p.value.version, p.value.name, "", "");
      if * {
        assert Reads(fs[i], dialect).Some?;
        return None;
      }
      if p.value.dir.Upward? {
        m := m.(up := fs[i].content);
      } else {
        m := m.(down := fs[i].content);
      }
      byVersion := byVersion[p.value.version := m];
    }
    assert fs[..|fs|] == fs;
    return Some(byVersion);
  }

  lemma EarlierHaveUp(order: seq<Migration>, g: map<int, Migration>, i: nat)
    requires Lists(order, g) && i < |order| && (forall j :: 0 <= j < i ==> order[j].up != "")
    requires forall v :: v in g ==> g[v].version == v
    ensures order[i].version in g && g[order[i].version] == order[i]
    ensures forall v :: v in g && v < order[i].version ==> g[v].up != ""
  {
    forall v | v in g && v < order[i].version ensures g[v].up != "" {
      var j :| 0 <= j < |order| && order[j] == g[v];
    }
  }

  // The first migration without an up text ends the loading.
  ghost predicate LoadedFrom(r: Loaded, g: map<int, Migration>) {
    match r
    case Loaded(list) => Lists(list, g) && forall i :: 0 <= i < |list| ==> list[i].up != ""
    case MissingUp(w) => w in g && g[w].up == "" && forall v :: v in g && v < w ==> g[v].up != ""
    case ReadFailed => false
  }

  method Collect(order: seq<Migration>, ghost g: map<int, Migration>) returns (r: Loaded)
    requires Lists(order, g) && forall v :: v in g ==> g[v].version == v
    ensures LoadedFrom(r, g)
  {
    var out: seq<Migration> := [];
    for i := 0 to |order|
      invariant out == order[..i] && forall j :: 0 <= j < i ==> order[j].up != ""
    {
      if order[i].up == "" {
        EarlierHaveUp(order, g, i);
        return MissingUp(order[i].version);
      }
      out := out + [order[i]];
    }
    assert out == order;
    return Loaded(out);
  }

  method Load(fs: seq<File>, dialect: string) returns (r: Loaded)
    ensures if r.ReadFailed? then exists i :: 0 <= i < |fs| && Reads(fs[i], dialect).Some?
            else LoadedFrom(r, Grouped(fs, dialect))
  {
    var byVersion := GroupFiles(fs, dialect);
    if byVersion.None? {
      return ReadFailed;
    }
    forall v | v in byVersion.value ensures byVersion.value[v].version == v {
      GroupedMeans(fs, dialect, v);
    }
    var order := SortedValues(byVersion.value);
    r := Collect(order, byVersion.value);
  }

  lemma {:induction false} InsertStrict(m: Migration, ms: seq<Migration>)
    requires Strict(ms) && forall i :: 0 <= i < |ms| ==> ms[i].version != m.version
    ensures Strict(Insert(m, ms))
    ensures Insert(m, ms) != [] && (Insert(m, ms)[0] == m || (ms != [] && Insert(m, ms)[0] == ms[0]))
    ensures forall x :: x in Insert(m, ms) <==> x == m || x in ms
  {
    if ms != [] && m.version > ms[0].version {
      InsertStrict(m, ms[1..]);
      assert ms == [ms[0]] + ms[1..];
    }
  }

  lemma NoMember(s: set<int>)
    ensures (forall v :: v !in s) ==> s == {}
  {
    if forall v :: v !in s {
      assert s == {};
    }
  }

  // The map is walked in some order; sorting the versions makes the order immaterial.
  method SortedValues(g: map<int, Migration>) returns (order: seq<Migration>)
    requires forall v :: v in g ==> g[v].version == v
    ensures Lists(order, g)
  {
    var left: set<int> := g.Keys;
    order := [];
    while left != {}
      invariant left <= g.Keys && Strict(order)
      invariant forall i :: 0 <= i < |order| ==> order[i].version in g && order[i].version !in left && g[order[i].version] == order[i]
      invariant forall v :: v in g && v !in left ==> g[v] in order
      decreases left
    {
      NoMember(left);
      var v :| v in left;
      InsertStrict(g[v], order);
      ghost var before := order;
      order := Insert(g[v], order);
      left := left - {v};
      forall i | 0 <= i < |order|
        ensures order[i].version in g && order[i].version !in left && g[order[i].version] == order[i]
      {
        assert order[i] in order;
      }
    }
  }

  // ---------------------------------------------------------------- a generated pair is loaded back

  lemma {:induction false} LastTextAt(fs: seq<File>, dialect: string, v: int, dir: Direction, i: nat)
    requires i < |fs| && Holds(fs[i], dialect, v, dir)
    requires forall k :: i < k < |fs| && Holds(fs[k], dialect, v, dir) ==> fs[k].content == fs[i].content
    ensures LastText(fs, dialect, v, dir) == fs[i].content
  {
    if !Holds(fs[|fs| - 1], dialect, v, dir) {
      assert fs[..|fs| - 1][i] == fs[i];
      LastTextAt(fs[..|fs| - 1], dialect, v, dir, i);
    }
  }

  lemma {:induction false} NameFrom(fs: seq<File>, dialect: string, v: int) returns (k: nat)
    requires FirstNameOf(fs, dialect, v).Some?
    ensures k < |fs| && OfVersion(fs[k], dialect, v) && Reads(fs[k], dialect).value.name == FirstNameOf(fs, dialect, v).value
  {
    var init := fs[..|fs| - 1];
    if FirstNameOf(init, dialect, v).None? {
      k := |fs| - 1;
    } else {
      k := NameFrom(init, dialect, v);
    }
  }

  lemma {:induction false} NamePresent(fs: seq<File>, dialect: string, v: int, i: nat)
    requires i < |fs| && OfVersion(fs[i], dialect, v)
    ensures FirstNameOf(fs, dialect, v).Some?
  {
    if i < |fs| - 1 {
      NamePresent(fs[..|fs| - 1], dialect, v, i);
    }
  }

  // The listing shows exactly the files of the directory, besides sub-directories.
  ghost predicate ListingOf(fs: seq<File>, files: map<string, string>) {
    && (forall i :: 0 <= i < |fs| && !fs[i].isDir ==> fs[i].name in files && fs[i].content == files[fs[i].name])
    && (forall n :: n in files ==> exists i :: 0 <= i < |fs| && fs[i] == File(n, false, files[n]))
  }

  predicate NoFileOf(files: map<string, string>, dialect: string, v: int) {
    forall n :: n in files && ParseFileName(n, dialect).Some? ==> ParseFileName(n, dialect).value.version != v
  }

  /** A pair written by Generate into a directory without other files of its version is read, under
      every dialect, as one migration with the same version, name, up text and down text. */
  lemma {:induction false} GeneratedPairLoads(files: map<string, string>, gen: Generated, fs: seq<File>, dialect: string)
    requires gen.version <= MaxInt && gen.name != "" && Plain(gen.name)
    requires NoFileOf(files, dialect, gen.version)
    requires ListingOf(fs, files[FileName(gen.version, gen.name, Upward) := gen.up]
                                [FileName(gen.version, gen.name, Downward) := gen.down])
    ensures gen.version in Grouped(fs, dialect)
    ensures Grouped(fs, dialect)[gen.version] == Migration(gen.version, gen.name, gen.up, gen.down)
  {
    var upName, downName := FileName(gen.version, gen.name, Upward), FileName(gen.version, gen.name, Downward);
    var now := files[upName := gen.up][downName := gen.down];
    FileNameRoundTrip(gen.version, gen.name, Upward, dialect);
    FileNameRoundTrip(gen.version, gen.name, Downward, dialect);
    assert upName in now && now[upName] == gen.up && downName in now;
    var i :| 0 <= i < |fs| && fs[i] == File(upName, false, now[upName]);
    var j :| 0 <= j < |fs| && fs[j] == File(downName, false, now[downName]);
    forall k | 0 <= k < |fs| && OfVersion(fs[k], dialect, gen.version) ensures fs[k] == fs[i] || fs[k] == fs[j] {
      assert fs[k].name in now;
    }
    LastTextAt(fs, dialect, gen.version, Upward, i);
    LastTextAt(fs, dialect, gen.version, Downward, j);
    OneName(fs, dialect, gen.version, gen.name, i);
  }

  /** From any directory without files of that version: the pair that Generate leaves behind is in the
      list that Load returns, under every dialect, as the one migration of its version; and it is never
      the one that Load misses an up text for. */
  lemma {:induction false} GeneratedIsLoaded(before: map<string, string>, after: map<string, string>, name: string, es: seq<Entity>,
                                             gen: Generated, fs: seq<File>, dialect: string, r: Loaded)
    requires gen.version <= MaxInt && NoFileOf(before, dialect, gen.version) && Wrote(before, after, name, es, gen)
    requires ListingOf(fs, after) && (r.ReadFailed? || LoadedFrom(r, Grouped(fs, dialect)))
    ensures var m := Migration(gen.version, gen.name, gen.up, gen.down);
            r.Loaded? ==> m in r.list && forall x :: x in r.list && x.version == gen.version ==> x == m
    ensures r.MissingUp? ==> r.version != gen.version
  {
    var token :| IsToken(token) && gen.name == Normalized(name) + "_" + token;
    GeneratedNameIsPlain(name, token);
    GeneratedPairLoads(before, gen, fs, dialect);
    assert |gen.up| > 0;
  }

  // ---------------------------------------------------------------- dialect-specific files

  // The order os.ReadDir lists names in.
  predicate Less(a: string, b: string) {
    b != [] && (a == [] || a[0] < b[0] || (a[0] == b[0] && Less(a[1..], b[1..])))
  }

  predicate Listed(fs: seq<File>) {
    forall i, j :: 0 <= i < j < |fs| ==> Less(fs[i].name, fs[j].name)
  }

  lemma {:induction false} LessAsymmetric(a: string, b: string)
    requires Less(a, b)
    ensures !Less(b, a)
  {
    if a != [] && a[0] == b[0] {
      LessAsymmetric(a[1..], b[1..]);
    }
  }

  lemma {:induction false} LessAfter(p: string, a: string, b: string)
    ensures Less(p + a, p + b) <==> Less(a, b)
  {
    if p == [] {
      assert p + a == a && p + b == b;
    } else {
      LessAfter(p[1..], a, b);
      assert (p + a)[1..] == p[1..] + a && (p + b)[1..] == p[1..] + b;
    }
  }

  function GenericName(left: string, dir: Direction): string {
    left + "." + Word(dir) + ".sql"
  }

  function SpecificName(left: string, d: string, dir: Direction): string {
    left + "." + d + "." + Word(dir) + ".sql"
  }

  /** With a generic and a dialect-specific file of one version and direction, the specific text is
      loaded exactly when its name sorts after the other: `<dialect>.up.sql` after `up.sql`, or
      `<dialect>.down.sql` after `down.sql`.  Another first letter decides that. */
  lemma {:induction false} SpecificWinsIff(fs: seq<File>, left: string, d: string, dir: Direction, i: nat, j: nat)
    requires Plain(left) && Plain(d) && d != "" && ParseStem(left).Some?
    requires Listed(fs) && i < |fs| && j < |fs| && !fs[i].isDir && !fs[j].isDir
    requires fs[i].name == GenericName(left, dir) && fs[j].name == SpecificName(left, d, dir)
    requires forall k :: 0 <= k < |fs| && k != i && k != j ==> !Holds(fs[k], d, ParseStem(left).value.0, dir)
    ensures LastText(fs, d, ParseStem(left).value.0, dir) ==
            if Less(Word(dir) + ".sql", d + "." + Word(dir) + ".sql") then fs[j].content else fs[i].content
    ensures d[0] != Word(dir)[0] ==>
              LastText(fs, d, ParseStem(left).value.0, dir) == if Word(dir)[0] < d[0] then fs[j].content else fs[i].content
  {
    var v := ParseStem(left).value.0;
    BothHold(left, d, dir, fs[i], fs[j]);
    NamesSort(left, d, dir);
    if i < j {
      assert Less(fs[i].name, fs[j].name);
      LastTextAt(fs, d, v, dir, j);
    } else {
      assert i != j;
      assert Less(fs[j].name, fs[i].name);
      LessAsymmetric(fs[j].name, fs[i].name);
      LastTextAt(fs, d, v, dir, i);
    }
  }

  lemma {:induction false} NamesSort(left: string, d: string, dir: Direction)
    requires d != ""
    ensures Less(GenericName(left, dir), SpecificName(left, d, dir)) <==> Less(Word(dir) + ".sql", d + "." + Word(dir) + ".sql")
    ensures d[0] != Word(dir)[0] ==> (Less(Word(dir) + ".sql", d + "." + Word(dir) + ".sql") <==> Word(dir)[0] < d[0])
  {
    var a, b := Word(dir) + ".sql", d + "." + Word(dir) + ".sql";
    LessAfter(left + ".", a, b);
    assert GenericName(left, dir) == left + "." + a;
    assert SpecificName(left, d, dir) == left + "." + b;
    assert a[0] == Word(dir)[0] && b[0] == d[0];
  }

  lemma {:induction false} BothHold(left: string, d: string, dir: Direction, generic: File, specific: File)
    requires Plain(left) && Plain(d) && d != "" && ParseStem(left).Some? && !generic.isDir && !specific.isDir
    requires generic.name == GenericName(left, dir) && specific.name == SpecificName(left, d, dir)
    ensures Holds(generic, d, ParseStem(left).value.0, dir) && Holds(specific, d, ParseStem(left).value.0, dir)
    ensures Reads(generic, d).value.name == Reads(specific, d).value.name == ParseStem(left).value.1
    ensures generic.name != specific.name
  {
    GenericParses(left, dir, d);
    SpecificParses(left, d, dir, d);
    assert |generic.name| < |specific.name|;
  }

  // Entry i is a plain file of that name.
  predicate IsFile(fs: seq<File>, i: nat, name: string) {
    i < |fs| && !fs[i].isDir && fs[i].name == name
  }

  // The text loaded in one direction when no third file of that version and direction is listed.
  lemma {:induction false} TextOfTwo(fs: seq<File>, left: string, d: string, dir: Direction, i: nat, j: nat, others: set<nat>)
    requires Plain(left) && Plain(d) && d != "" && d[0] != Word(dir)[0] && ParseStem(left).Some? && Listed(fs)
    requires IsFile(fs, i, GenericName(left, dir)) && IsFile(fs, j, SpecificName(left, d, dir))
    requires forall k :: 0 <= k < |fs| && k != i && k != j && k !in others ==> !OfVersion(fs[k], d, ParseStem(left).value.0)
    requires forall k :: k in others && k < |fs| ==> !Holds(fs[k], d, ParseStem(left).value.0, dir)
    ensures LastText(fs, d, ParseStem(left).value.0, dir) == if Word(dir)[0] < d[0] then fs[j].content else fs[i].content
  {
    forall k | 0 <= k < |fs| && k != i && k != j ensures !Holds(fs[k], d, ParseStem(left).value.0, dir) {
      assert k in others ==> !Holds(fs[k], d, ParseStem(left).value.0, dir);
    }
    SpecificWinsIff(fs, left, d, dir, i, j);
  }

  lemma {:induction false} OneName(fs: seq<File>, dialect: string, v: int, name: string, i: nat)
    requires i < |fs| && OfVersion(fs[i], dialect, v)
    requires forall k :: 0 <= k < |fs| && OfVersion(fs[k], dialect, v) ==> Reads(fs[k], dialect).value.name == name
    ensures v in Grouped(fs, dialect)
    ensures Grouped(fs, dialect)[v] == Migration(v, name, LastText(fs, dialect, v, Upward), LastText(fs, dialect, v, Downward))
  {
    NamePresent(fs, dialect, v, i);
    var k := NameFrom(fs, dialect, v);
    GroupedMeans(fs, dialect, v);
  }

  /** For a dialect whose first letter lies strictly between `d` and `u`, such as `pg`, `mysql` or
      `sqlite`, a version with all four files is loaded with the generic up text and the dialect's own
      down text. */
  lemma {:induction false} GenericUpSpecificDown(fs: seq<File>, left: string, d: string, up: nat, up': nat, down: nat, down': nat)
    requires Plain(left) && Plain(d) && d != "" && 'd' < d[0] < 'u' && ParseStem(left).Some? && Listed(fs)
    requires IsFile(fs, up, GenericName(left, Upward)) && IsFile(fs, up', SpecificName(left, d, Upward))
    requires IsFile(fs, down, GenericName(left, Downward)) && IsFile(fs, down', SpecificName(left, d, Downward))
    requires forall k :: 0 <= k < |fs| && k != up && k != up' && k != down && k != down' ==> !OfVersion(fs[k], d, ParseStem(left).value.0)
    ensures var (v, name) := ParseStem(left).value;
            v in Grouped(fs, d) && Grouped(fs, d)[v] == Migration(v, name, fs[up].content, fs[down'].content)
  {
    var (v, name) := ParseStem(left).value;
    BothHold(left, d, Upward, fs[up], fs[up']);
    BothHold(left, d, Downward, fs[down], fs[down']);
    TextOfTwo(fs, left, d, Upward, up, up', {down, down'});
    TextOfTwo(fs, left, d, Downward, down, down', {up, up'});
    OneName(fs, d, v, name, up);
  }
}
