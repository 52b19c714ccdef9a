/** What a call of Up or Down may do, stated on values, and what every run of such calls keeps
    (migrate/migrate.go). The schema type S and the effect of a script on it are arbitrary. */
module Migrations {
  import opened Strings

  datatype Migration = Migration(version: int, name: string, up: string, down: string)

  // The version table and the schema that the scripts change.
  datatype State<S> = State(table: map<int, string>, schema: S)

  type Effect<!S> = (string, S) -> S

  datatype Direction = Upward | Downward

  datatype Failure = SetupFailed | MissingSql(version: int) | StatementFailed(version: int)

  function Script(dir: Direction, m: Migration): string {
    if dir.Upward? then m.up else m.down
  }

  predicate Blank(s: string) {
    TrimSpace(s) == ""
  }

  // ---------------------------------------------------------------- one migration, many migrations

  function Move<S>(eff: Effect<S>, dir: Direction, st: State<S>, m: Migration): State<S> {
    match dir
    case Upward => State(st.table[m.version := m.name], eff(m.up, st.schema))
    case Downward => State(st.table - {m.version}, eff(m.down, st.schema))
  }

  function MoveAll<S>(eff: Effect<S>, dir: Direction, st: State<S>, ms: seq<Migration>): State<S> {
    if ms == [] then st else Move(eff, dir, MoveAll(eff, dir, st, ms[..|ms| - 1]), ms[|ms| - 1])
  }

  // Up concerns what is not in the table, Down what is.
  predicate Concerns(dir: Direction, table: map<int, string>, m: Migration) {
    dir.Downward? <==> m.version in table
  }

  function Todo(dir: Direction, table: map<int, string>, order: seq<Migration>): seq<Migration> {
    if order == [] then []
    else Todo(dir, table, order[..|order| - 1]) +
         if Concerns(dir, table, order[|order| - 1]) then [order[|order| - 1]] else []
  }

  // steps <= 0 means all of them.
  function Target(steps: int, todo: nat): nat {
    if 0 < steps < todo then steps else todo
  }

  predicate DistinctVersions(ms: seq<Migration>) {
    forall i, j :: 0 <= i < j < |ms| ==> ms[i].version != ms[j].version
  }

  // How many migrations a call has moved: one more than it counted if its last commit took effect
  // although the answer was lost.
  function Changed(count: nat, lost: bool): nat {
    if lost then count + 1 else count
  }

  // What a call that visits `order` may do: the first of the migrations it concerns have moved, each
  // as a whole; the call fails only at the next one, or before the first.
  ghost predicate Outcome<S>(eff: Effect<S>, dir: Direction, order: seq<Migration>, steps: int,
                             st: State<S>, st': State<S>, count: nat, failure: Option<Failure>, lost: bool)
  {
    var todo := Todo(dir, st.table, order);
    var changed := Changed(count, lost);
    && changed <= Target(steps, |todo|)
    && st' == MoveAll(eff, dir, st, todo[..changed])
    && (forall i :: 0 <= i < changed ==> !Blank(Script(dir, todo[i])))
    && (dir.Upward? ==> DistinctVersions(todo[..changed]))
    && (lost ==> failure.Some? && failure.value.StatementFailed?)
    && match failure
       case None => count == Target(steps, |todo|)
       case Some(SetupFailed) => count == 0
       case Some(MissingSql(v)) => count < Target(steps, |todo|) && v == todo[count].version && Blank(Script(dir, todo[count]))
       case Some(StatementFailed(v)) => count < Target(steps, |todo|) && v == todo[count].version && !Blank(Script(dir, todo[count]))
  }

  // ---------------------------------------------------------------- the order of a call

  function Insert(m: Migration, ms: seq<Migration>): seq<Migration> {
    if ms == [] || m.version <= ms[0].version then [m] + ms else [ms[0]] + Insert(m, ms[1..])
  }

  function Ascending(ms: seq<Migration>): seq<Migration> {
    if ms == [] then [] else Insert(ms[0], Ascending(ms[1..]))
  }

  function Reversed(ms: seq<Migration>): seq<Migration> {
    seq(|ms|, i requires 0 <= i < |ms| => ms[|ms| - 1 - i])
  }

  predicate Strict(ms: seq<Migration>) {
    forall i, j :: 0 <= i < j < |ms| ==> ms[i].version < ms[j].version
  }

  predicate Sorted(ms: seq<Migration>) {
    forall i, j :: 0 <= i < j < |ms| ==> ms[i].version <= ms[j].version
  }

  lemma {:induction false} InsertKeeps(m: Migration, ms: seq<Migration>)
    ensures multiset(Insert(m, ms)) == multiset{m} + multiset(ms)
  {
    if ms != [] && m.version > ms[0].version {
      InsertKeeps(m, ms[1..]);
      assert ms == [ms[0]] + ms[1..];
    }
  }

  lemma {:induction false} InsertSorts(m: Migration, ms: seq<Migration>)
    requires Sorted(ms)
    ensures Sorted(Insert(m, ms))
    ensures Insert(m, ms) != [] && (Insert(m, ms)[0] == m || (ms != [] && Insert(m, ms)[0] == ms[0]))
  {
    if ms != [] && m.version > ms[0].version {
      InsertSorts(m, ms[1..]);
    }
  }

  lemma {:induction false} AscendingSorts(ms: seq<Migration>)
    ensures multiset(Ascending(ms)) == multiset(ms) && Sorted(Ascending(ms))
  {
    if ms != [] {
      AscendingSorts(ms[1..]);
      InsertKeeps(ms[0], Ascending(ms[1..]));
      InsertSorts(ms[0], Ascending(ms[1..]));
      assert ms == [ms[0]] + ms[1..];
    }
  }

  lemma {:induction false} SameHead(a: seq<Migration>, b: seq<Migration>)
    requires Sorted(a) && Strict(b) && multiset(a) == multiset(b) && a != []
    ensures b != [] && a[0] == b[0]
  {
    assert a[0] in multiset(b);
    var j :| 0 <= j < |b| && b[j] == a[0];
    assert b[0] in multiset(a);
    var i :| 0 <= i < |a| && a[i] == b[0];
  }

  lemma {:induction false} TailContents(a: seq<Migration>)
    requires a != []
    ensures multiset(a[1..]) == multiset(a) - multiset{a[0]}
  {
    assert a == [a[0]] + a[1..];
  }

  lemma {:induction false} SortedUnique(a: seq<Migration>, b: seq<Migration>)
    requires Sorted(a) && Strict(b) && multiset(a) == multiset(b)
    ensures a == b
  {
    if a == [] {
      assert |multiset(b)| == 0;
    } else {
      SameHead(a, b);
      TailContents(a);
      TailContents(b);
      SortedUnique(a[1..], b[1..]);
      calc {
        a;
        [a[0]] + a[1..];
        [b[0]] + b[1..];
        b;
      }
    }
  }

  lemma {:induction false} ReversedKeeps(ms: seq<Migration>)
    ensures multiset(Reversed(ms)) == multiset(ms)
  {
    if ms != [] {
      var init, last := ms[..|ms| - 1], ms[|ms| - 1];
      ReversedKeeps(init);
      assert ms == init + [last];
      assert Reversed(ms) == [last] + Reversed(init);
    }
  }

  /** However earlier calls left the caller's slice ordered, a call visits the same versions in the
      same order and leaves the same migrations behind. */
  lemma {:induction false} SameOrder(ms: seq<Migration>, order: seq<Migration>)
    requires Strict(order) && multiset(ms) == multiset(order)
    ensures Ascending(ms) == order && multiset(Reversed(order)) == multiset(ms)
  {
    ReversedKeeps(order);
    AscendingSorts(ms);
    SortedUnique(Ascending(ms), order);
  }

  // ---------------------------------------------------------------- facts about Todo and MoveAll

  lemma {:induction false} TodoPrefix(dir: Direction, table: map<int, string>, order: seq<Migration>, i: nat)
    requires i <= |order|
    ensures var all, now := Todo(dir, table, order), Todo(dir, table, order[..i]);
            && |now| <= |all| && all[..|now|] == now
            && (i < |order| && Concerns(dir, table, order[i]) ==> |now| < |all| && all[|now|] == order[i])
  {
    if i < |order| {
      var init := order[..|order| - 1];
      TodoPrefix(dir, table, init, i);
      assert init[..i] == order[..i];
    } else {
      assert order[..i] == order;
    }
  }

  lemma {:induction false} TodoAppend(dir: Direction, table: map<int, string>, a: seq<Migration>, b: seq<Migration>)
    ensures Todo(dir, table, a + b) == Todo(dir, table, a) + Todo(dir, table, b)
  {
    if b == [] {
      assert a + b == a;
    } else {
      TodoAppend(dir, table, a, b[..|b| - 1]);
      assert (a + b)[..|a + b| - 1] == a + b[..|b| - 1];
    }
  }

  lemma {:induction false} TodoAll(dir: Direction, table: map<int, string>, order: seq<Migration>)
    requires forall i :: 0 <= i < |order| ==> Concerns(dir, table, order[i])
    ensures Todo(dir, table, order) == order
  {
    if order != [] {
      TodoAll(dir, table, order[..|order| - 1]);
    }
  }

  lemma {:induction false} TodoNone(dir: Direction, table: map<int, string>, order: seq<Migration>)
    requires forall i :: 0 <= i < |order| ==> !Concerns(dir, table, order[i])
    ensures Todo(dir, table, order) == []
  {
    if order != [] {
      TodoNone(dir, table, order[..|order| - 1]);
    }
  }

  lemma {:induction false} TodoSame(dir: Direction, t: map<int, string>, t': map<int, string>, order: seq<Migration>)
    requires forall i :: 0 <= i < |order| ==> (Concerns(dir, t, order[i]) <==> Concerns(dir, t', order[i]))
    ensures Todo(dir, t, order) == Todo(dir, t', order)
  {
    if order != [] {
      TodoSame(dir, t, t', order[..|order| - 1]);
    }
  }

  lemma {:induction false} MoveAllAppend<S>(eff: Effect<S>, dir: Direction, st: State<S>, a: seq<Migration>, b: seq<Migration>)
    ensures MoveAll(eff, dir, st, a + b) == MoveAll(eff, dir, MoveAll(eff, dir, st, a), b)
  {
    if b == [] {
      assert a + b == a;
    } else {
      MoveAllAppend(eff, dir, st, a, b[..|b| - 1]);
      assert (a + b)[..|a + b| - 1] == a + b[..|b| - 1];
    }
  }

  // The schema after these scripts, one after the other.
  function RunAll<S>(eff: Effect<S>, scripts: seq<string>, schema: S): S {
    if scripts == [] then schema else RunAll(eff, scripts[1..], eff(scripts[0], schema))
  }

  lemma {:induction false} RunAllAppend<S>(eff: Effect<S>, scripts: seq<string>, script: string, schema: S)
    ensures RunAll(eff, scripts + [script], schema) == eff(script, RunAll(eff, scripts, schema))
  {
    if scripts == [] {
      assert scripts + [script] == [script] && [script][1..] == [];
    } else {
      assert (scripts + [script])[1..] == scripts[1..] + [script];
      RunAllAppend(eff, scripts[1..], script, eff(scripts[0], schema));
    }
  }

  function UpTexts(ms: seq<Migration>): seq<string> {
    seq(|ms|, i requires 0 <= i < |ms| => ms[i].up)
  }

  function DownTexts(ms: seq<Migration>): seq<string> {
    seq(|ms|, i requires 0 <= i < |ms| => ms[i].down)
  }

  function Versions(ms: seq<Migration>): set<int> {
    set i | 0 <= i < |ms| :: ms[i].version
  }

  lemma VersionsAppend(ms: seq<Migration>, m: Migration)
    ensures Versions(ms + [m]) == Versions(ms) + {m.version}
  {
    forall v | v in Versions(ms) ensures v in Versions(ms + [m]) {
      var i :| 0 <= i < |ms| && ms[i].version == v;
      assert (ms + [m])[i] == ms[i];
    }
    assert (ms + [m])[|ms|] == m;
  }

  lemma {:induction false} DownTable<S>(eff: Effect<S>, st: State<S>, ms: seq<Migration>)
    ensures MoveAll(eff, Downward, st, ms).table == st.table - Versions(ms)
  {
    if ms != [] {
      var init, last := ms[..|ms| - 1], ms[|ms| - 1];
      DownTable(eff, st, init);
      assert ms == init + [last];
      VersionsAppend(init, last);
    }
  }

  lemma {:induction false} UpTable<S>(eff: Effect<S>, st: State<S>, ms: seq<Migration>)
    ensures var up := MoveAll(eff, Upward, st, ms).table;
            && up.Keys == st.table.Keys + Versions(ms)
            && (forall v :: v in st.table && v !in Versions(ms) ==> up[v] == st.table[v])
            && (DistinctVersions(ms) ==> forall i :: 0 <= i < |ms| ==> up[ms[i].version] == ms[i].name)
  {
    if ms != [] {
      var init, last := ms[..|ms| - 1], ms[|ms| - 1];
      UpTable(eff, st, init);
      assert ms == init + [last];
      VersionsAppend(init, last);
    }
  }

  lemma {:induction false} MovesSchema<S>(eff: Effect<S>, st: State<S>, ms: seq<Migration>)
    ensures MoveAll(eff, Upward, st, ms).schema == RunAll(eff, UpTexts(ms), st.schema)
    ensures MoveAll(eff, Downward, st, ms).schema == RunAll(eff, DownTexts(ms), st.schema)
  {
    if ms != [] {
      var init, last := ms[..|ms| - 1], ms[|ms| - 1];
      MovesSchema(eff, st, init);
      RunAllAppend(eff, UpTexts(init), last.up, st.schema);
      RunAllAppend(eff, DownTexts(init), last.down, st.schema);
      assert UpTexts(ms) == UpTexts(init) + [last.up] && DownTexts(ms) == DownTexts(init) + [last.down];
    }
  }

  /** Moving up runs the up scripts in order and records each version under the migration's name; moving down
      runs the down scripts in order and takes the versions out. */
  lemma MovesMean<S>(eff: Effect<S>, st: State<S>, ms: seq<Migration>)
    ensures var up, down := MoveAll(eff, Upward, st, ms), MoveAll(eff, Downward, st, ms);
            && up.schema == RunAll(eff, UpTexts(ms), st.schema) && down.schema == RunAll(eff, DownTexts(ms), st.schema)
            && up.table.Keys == st.table.Keys + Versions(ms) && down.table == st.table - Versions(ms)
            && (forall v :: v in st.table && v !in Versions(ms) ==> up.table[v] == st.table[v])
            && (DistinctVersions(ms) ==> forall i :: 0 <= i < |ms| ==> up.table[ms[i].version] == ms[i].name)
  {
    UpTable(eff, st, ms);
    DownTable(eff, st, ms);
    MovesSchema(eff, st, ms);
  }

  // ---------------------------------------------------------------- a call part of the way through

  // The call has visited the first i of `order` and moved all of them that concern it.
  ghost predicate Partway<S>(eff: Effect<S>, dir: Direction, order: seq<Migration>, steps: int,
                             st: State<S>, now: State<S>, i: nat, count: nat)
  {
    && i <= |order|
    && var moved := Todo(dir, st.table, order[..i]);
       && count == |moved| && now == MoveAll(eff, dir, st, moved)
       && (steps > 0 ==> count <= steps)
       && (forall j :: 0 <= j < count ==> !Blank(Script(dir, moved[j])))
       && (dir.Upward? ==> DistinctVersions(moved) && forall j :: 0 <= j < count ==> moved[j].version in now.table)
  }

  lemma {:induction false} PartwaySkips<S>(eff: Effect<S>, dir: Direction, order: seq<Migration>, steps: int,
                                           st: State<S>, now: State<S>, i: nat, count: nat)
    requires i < |order| && Partway(eff, dir, order, steps, st, now, i, count) && !Concerns(dir, st.table, order[i])
    ensures Partway(eff, dir, order, steps, st, now, i + 1, count)
  {
    assert order[..i + 1][..i] == order[..i];
    assert Todo(dir, st.table, order[..i + 1]) == Todo(dir, st.table, order[..i]);
  }

  lemma {:induction false} PartwayMoves<S>(eff: Effect<S>, dir: Direction, order: seq<Migration>, steps: int,
                                           st: State<S>, now: State<S>, i: nat, count: nat)
    requires i < |order| && Partway(eff, dir, order, steps, st, now, i, count) && Concerns(dir, st.table, order[i])
    requires !(steps > 0 && count >= steps) && !Blank(Script(dir, order[i]))
    requires dir.Upward? ==> order[i].version !in now.table
    ensures Partway(eff, dir, order, steps, st, Move(eff, dir, now, order[i]), i + 1, count + 1)
  {
    assert order[..i + 1][..i] == order[..i];
    var moved := Todo(dir, st.table, order[..i]);
    assert Todo(dir, st.table, order[..i + 1]) == moved + [order[i]];
    assert (moved + [order[i]])[..count] == moved;
  }

  // What has been moved is the front of what there is to do.
  lemma {:induction false} PartwayPrefix<S>(eff: Effect<S>, dir: Direction, order: seq<Migration>, steps: int,
                                            st: State<S>, now: State<S>, i: nat, count: nat)
    requires Partway(eff, dir, order, steps, st, now, i, count)
    ensures var todo := Todo(dir, st.table, order);
            && count <= |todo| && now == MoveAll(eff, dir, st, todo[..count])
            && (forall j :: 0 <= j < count ==> !Blank(Script(dir, todo[j])))
            && (dir.Upward? ==> DistinctVersions(todo[..count]))
  {
    TodoPrefix(dir, st.table, order, i);
    var todo, moved := Todo(dir, st.table, order), Todo(dir, st.table, order[..i]);
    assert todo[..count] == moved;
    forall j | 0 <= j < count ensures todo[j] == moved[j] {
      assert todo[..count][j] == moved[j];
    }
  }

  // A call may stop at the end, at its last step, or with a failure at a migration it concerns.
  lemma {:induction false} PartwayStops<S>(eff: Effect<S>, dir: Direction, order: seq<Migration>, steps: int,
                                           st: State<S>, now: State<S>, i: nat, count: nat, failure: Option<Failure>)
    requires Partway(eff, dir, order, steps, st, now, i, count)
    requires i < |order| ==> Concerns(dir, st.table, order[i])
    requires match failure
             case None => i == |order| || (steps > 0 && count >= steps)
             case Some(SetupFailed) => false
             case Some(MissingSql(v)) => i < |order| && !(steps > 0 && count >= steps) && v == order[i].version && Blank(Script(dir, order[i]))
             case Some(StatementFailed(v)) => i < |order| && !(steps > 0 && count >= steps) && v == order[i].version && !Blank(Script(dir, order[i]))
    ensures Outcome(eff, dir, order, steps, st, now, count, failure, false)
  {
    TodoPrefix(dir, st.table, order, i);
    var todo, moved := Todo(dir, st.table, order), Todo(dir, st.table, order[..i]);
    assert todo[..count] == moved;
    assert i == |order| ==> order[..i] == order;
    forall j | 0 <= j < count ensures todo[j] == moved[j] {
      assert todo[..count][j] == moved[j];
    }
  }

  // The same when the last commit took effect and its answer was lost.
  lemma {:induction false} PartwayLoses<S>(eff: Effect<S>, dir: Direction, order: seq<Migration>, steps: int,
                                           st: State<S>, now: State<S>, i: nat, count: nat)
    requires i < |order| && Partway(eff, dir, order, steps, st, now, i, count) && Concerns(dir, st.table, order[i])
    requires !(steps > 0 && count >= steps) && !Blank(Script(dir, order[i]))
    requires dir.Upward? ==> order[i].version !in now.table
    ensures Outcome(eff, dir, order, steps, st, Move(eff, dir, now, order[i]), count, Some(StatementFailed(order[i].version)), true)
  {
    TodoPrefix(dir, st.table, order, i);
    PartwayMoves(eff, dir, order, steps, st, now, i, count);
    PartwayPrefix(eff, dir, order, steps, st, Move(eff, dir, now, order[i]), i + 1, count + 1);
  }
}
