/** Runs of Up and Down over one list of distinct versions: the applied versions are always a prefix
    of the sorted list, and the schema is the replay of that prefix. */
module MigrationRuns {
  import opened Strings
  import opened Migrations

  // The version table and the schema after the first n migrations.
  function TableAt(order: seq<Migration>, n: nat): map<int, string>
    requires n <= |order|
  {
    if n == 0 then map[] else TableAt(order, n - 1)[order[n - 1].version := order[n - 1].name]
  }

  function SchemaAt<S>(eff: Effect<S>, order: seq<Migration>, n: nat, start: S): S
    requires n <= |order|
  {
    if n == 0 then start else eff(order[n - 1].up, SchemaAt(eff, order, n - 1, start))
  }

  function StateAt<S>(eff: Effect<S>, order: seq<Migration>, n: nat, start: S): State<S>
    requires n <= |order|
  {
    State(TableAt(order, n), SchemaAt(eff, order, n, start))
  }

  ghost predicate Inverts<S(!new)>(eff: Effect<S>, order: seq<Migration>) {
    forall i, s :: 0 <= i < |order| ==> eff(order[i].down, eff(order[i].up, s)) == s
  }

  function Visited(dir: Direction, order: seq<Migration>): seq<Migration> {
    if dir.Upward? then order else Reversed(order)
  }

  lemma {:induction false} InTable(order: seq<Migration>, n: nat, i: nat)
    requires Strict(order) && n <= |order| && i < |order|
    ensures order[i].version in TableAt(order, n) <==> i < n
  {
    if n > 0 {
      InTable(order, n - 1, i);
    }
  }

  // ---------------------------------------------------------------- what is left to do at a prefix

  lemma {:induction false} TodoUp(order: seq<Migration>, n: nat)
    requires Strict(order) && n <= |order|
    ensures Todo(Upward, TableAt(order, n), order) == order[n..]
  {
    forall i | 0 <= i < |order| ensures order[i].version in TableAt(order, n) <==> i < n {
      InTable(order, n, i);
    }
    TodoNone(Upward, TableAt(order, n), order[..n]);
    TodoAll(Upward, TableAt(order, n), order[n..]);
    TodoAppend(Upward, TableAt(order, n), order[..n], order[n..]);
    assert order[..n] + order[n..] == order;
  }

  lemma {:induction false} TodoDownParts(order: seq<Migration>, n: nat)
    requires Strict(order) && n <= |order|
    ensures Todo(Downward, TableAt(order, n), Reversed(order[n..])) == []
    ensures Todo(Downward, TableAt(order, n), Reversed(order[..n])) == Reversed(order[..n])
  {
    forall i | 0 <= i < |order| ensures order[i].version in TableAt(order, n) <==> i < n {
      InTable(order, n, i);
    }
    var newer, older := Reversed(order[n..]), Reversed(order[..n]);
    assert forall i :: 0 <= i < |newer| ==> newer[i] == order[|order| - 1 - i];
    assert forall i :: 0 <= i < |older| ==> older[i] == order[n - 1 - i];
    TodoNone(Downward, TableAt(order, n), newer);
    TodoAll(Downward, TableAt(order, n), older);
  }

  lemma {:induction false} TodoDown(order: seq<Migration>, n: nat)
    requires Strict(order) && n <= |order|
    ensures Todo(Downward, TableAt(order, n), Reversed(order)) == Reversed(order[..n])
  {
    TodoDownParts(order, n);
    TodoAppend(Downward, TableAt(order, n), Reversed(order[n..]), Reversed(order[..n]));
    assert Reversed(order[n..]) + Reversed(order[..n]) == Reversed(order);
  }

  // ---------------------------------------------------------------- moving along the list

  lemma {:induction false} MovesUp<S>(eff: Effect<S>, order: seq<Migration>, n: nat, c: nat, st: State<S>, start: S)
    requires n + c <= |order| && st.table == TableAt(order, n)
    ensures var st' := MoveAll(eff, Upward, st, order[n..][..c]);
            && st'.table == TableAt(order, n + c)
            && (st.schema == SchemaAt(eff, order, n, start) ==> st'.schema == SchemaAt(eff, order, n + c, start))
  {
    if c > 0 {
      MovesUp(eff, order, n, c - 1, st, start);
      assert order[n..][..c][..c - 1] == order[n..][..c - 1];
      assert order[n..][..c][c - 1] == order[n + c - 1];
    }
  }

  lemma {:induction false} TableBack(order: seq<Migration>, n: nat)
    requires Strict(order) && 0 < n <= |order|
    ensures TableAt(order, n) - {order[n - 1].version} == TableAt(order, n - 1)
  {
    InTable(order, n - 1, n - 1);
  }

  lemma {:induction false} MovesDown<S(!new)>(eff: Effect<S>, order: seq<Migration>, n: nat, c: nat, st: State<S>, start: S)
    requires Strict(order) && c <= n <= |order| && st.table == TableAt(order, n)
    ensures var st' := MoveAll(eff, Downward, st, Reversed(order[..n])[..c]);
            && st'.table == TableAt(order, n - c)
            && (Inverts(eff, order) && st.schema == SchemaAt(eff, order, n, start) ==> st'.schema == SchemaAt(eff, order, n - c, start))
  {
    if c > 0 {
      MovesDown(eff, order, n, c - 1, st, start);
      var back := Reversed(order[..n]);
      assert back[..c][..c - 1] == back[..c - 1];
      var m := order[n - c];
      assert back[..c][c - 1] == m;
      TableBack(order, n - c + 1);
      assert SchemaAt(eff, order, n - c + 1, start) == eff(m.up, SchemaAt(eff, order, n - c, start));
    }
  }

  // Where a call that starts at prefix n and moves `changed` migrations ends.
  function Moved(dir: Direction, n: nat, changed: nat): int {
    if dir.Upward? then n + changed else n - changed
  }

  lemma {:induction false} UpKeepsPrefix<S(!new)>(eff: Effect<S>, order: seq<Migration>, steps: int, st: State<S>, st': State<S>,
                                            count: nat, failure: Option<Failure>, lost: bool, n: nat, start: S)
    requires Strict(order) && n <= |order| && st.table == TableAt(order, n)
    requires Outcome(eff, Upward, order, steps, st, st', count, failure, lost)
    ensures n + Changed(count, lost) <= |order| && st'.table == TableAt(order, n + Changed(count, lost))
    ensures st.schema == SchemaAt(eff, order, n, start) ==> st'.schema == SchemaAt(eff, order, n + Changed(count, lost), start)
    ensures failure.None? ==> count == Target(steps, |order| - n)
  {
    TodoUp(order, n);
    MovesUp(eff, order, n, Changed(count, lost), st, start);
  }

  lemma {:induction false} DownKeepsPrefix<S(!new)>(eff: Effect<S>, order: seq<Migration>, steps: int, st: State<S>, st': State<S>,
                                              count: nat, failure: Option<Failure>, lost: bool, n: nat, start: S)
    requires Strict(order) && n <= |order| && st.table == TableAt(order, n)
    requires Outcome(eff, Downward, Reversed(order), steps, st, st', count, failure, lost)
    ensures Changed(count, lost) <= n && st'.table == TableAt(order, n - Changed(count, lost))
    ensures Inverts(eff, order) && st.schema == SchemaAt(eff, order, n, start) ==>
              st'.schema == SchemaAt(eff, order, n - Changed(count, lost), start)
    ensures failure.None? ==> count == Target(steps, n)
  {
    TodoDown(order, n);
    MovesDown(eff, order, n, Changed(count, lost), st, start);
  }

  /** From a prefix every call, failed or not, leads to a prefix, `count` further or back; one more
      exactly when a commit took effect and its answer was lost. */
  lemma {:induction false} CallKeepsPrefix<S(!new)>(eff: Effect<S>, dir: Direction, order: seq<Migration>, steps: int,
                                              st: State<S>, st': State<S>, count: nat, failure: Option<Failure>, lost: bool, n: nat, start: S)
    requires Strict(order) && n <= |order| && st.table == TableAt(order, n)
    requires Outcome(eff, dir, Visited(dir, order), steps, st, st', count, failure, lost)
    ensures 0 <= Moved(dir, n, Changed(count, lost)) <= |order|
    ensures st'.table == TableAt(order, Moved(dir, n, Changed(count, lost)))
    ensures st.schema == SchemaAt(eff, order, n, start) && (dir.Upward? || Inverts(eff, order)) ==>
              st'.schema == SchemaAt(eff, order, Moved(dir, n, Changed(count, lost)), start)
    ensures failure.None? ==> count == Target(steps, if dir.Upward? then |order| - n else n)
  {
    match dir
    case Upward =>
      UpKeepsPrefix(eff, order, steps, st, st', count, failure, lost, n, start);
    case Downward =>
      DownKeepsPrefix(eff, order, steps, st, st', count, failure, lost, n, start);
  }

  // ---------------------------------------------------------------- runs

  ghost predicate Called<S(!new)>(eff: Effect<S>, order: seq<Migration>, st: State<S>, st': State<S>) {
    exists dir, steps, count, failure, lost :: Outcome(eff, dir, Visited(dir, order), steps, st, st', count, failure, lost)
  }

  ghost predicate IsRun<S(!new)>(eff: Effect<S>, order: seq<Migration>, start: S, states: seq<State<S>>) {
    && states != [] && states[0] == State(map[], start)
    && forall i :: 0 < i < |states| ==> Called(eff, order, states[i - 1], states[i])
  }

  /** In every run of Up and Down from an empty version table, with failures anywhere, the applied
      versions are a prefix of the sorted list; if every down script undoes its up script, the
      schema is the replay of that prefix. */
  lemma {:induction false} RunsKeepPrefix<S(!new)>(eff: Effect<S>, order: seq<Migration>, start: S, states: seq<State<S>>, k: nat) returns (n: nat)
    requires Strict(order) && IsRun(eff, order, start, states) && k < |states|
    ensures n <= |order| && states[k].table == TableAt(order, n)
    ensures Inverts(eff, order) ==> states[k].schema == SchemaAt(eff, order, n, start)
  {
    if k == 0 {
      n := 0;
    } else {
      n := RunsKeepPrefix(eff, order, start, states, k - 1);
      assert Called(eff, order, states[k - 1], states[k]);
      var dir, steps, count, failure, lost :|
        Outcome(eff, dir, Visited(dir, order), steps, states[k - 1], states[k], count, failure, lost);
      CallKeepsPrefix(eff, dir, order, steps, states[k - 1], states[k], count, failure, lost, n, start);
      n := Moved(dir, n, Changed(count, lost));
    }
  }

  // ---------------------------------------------------------------- composing calls

  /** Undoing as many migrations as Up counted gives back the version table and the schema, exactly
      when no commit of that Up took effect with its answer lost. */
  lemma {:induction false} DownUndoesUp<S(!new)>(eff: Effect<S>, order: seq<Migration>, n: nat, start: S,
                                           st: State<S>, st1: State<S>, st2: State<S>, steps: int, up: nat, failed: Option<Failure>, lost: bool, down: nat)
    requires Strict(order) && n <= |order| && st == StateAt(eff, order, n, start) && Inverts(eff, order)
    requires Outcome(eff, Upward, Visited(Upward, order), steps, st, st1, up, failed, lost) && up > 0
    requires Outcome(eff, Downward, Visited(Downward, order), up, st1, st2, down, None, false)
    ensures down == up && (st2 == st <==> !lost)
  {
    CallKeepsPrefix(eff, Upward, order, steps, st, st1, up, failed, lost, n, start);
    CallKeepsPrefix(eff, Downward, order, up, st1, st2, down, None, false, n + Changed(up, lost), start);
    if lost {
      InTable(order, n, n);
      InTable(order, n + 1, n);
    }
  }

  /** Down with the count of an Up that applied nothing means all: it rolls back every migration, so
      it gives the state back exactly when none was applied. */
  lemma {:induction false} DownZeroClears<S(!new)>(eff: Effect<S>, order: seq<Migration>, n: nat, start: S,
                                             st: State<S>, st': State<S>, steps: int, count: nat)
    requires Strict(order) && n <= |order| && st == StateAt(eff, order, n, start) && Inverts(eff, order)
    requires steps <= 0 && Outcome(eff, Downward, Visited(Downward, order), steps, st, st', count, None, false)
    ensures count == n && st' == State(map[], start)
    ensures st' == st <==> n == 0
  {
    CallKeepsPrefix(eff, Downward, order, steps, st, st', count, None, false, n, start);
    if n > 0 {
      InTable(order, n, 0);
    }
  }

  // ---------------------------------------------------------------- two Ups, from any version table

  lemma {:induction false} CutAt(dir: Direction, table: map<int, string>, order: seq<Migration>, a: nat) returns (i: nat)
    requires a <= |Todo(dir, table, order)|
    ensures i <= |order| && Todo(dir, table, order[..i]) == Todo(dir, table, order)[..a]
  {
    if a == |Todo(dir, table, order)| {
      i := |order|;
      assert order[..i] == order;
    } else {
      var init := order[..|order| - 1];
      i := CutAt(dir, table, init, a);
      assert init[..i] == order[..i];
    }
  }

  lemma {:induction false} KeysAfterUp<S>(eff: Effect<S>, st: State<S>, ms: seq<Migration>, v: int)
    ensures v in MoveAll(eff, Upward, st, ms).table <==> v in st.table || exists j :: 0 <= j < |ms| && ms[j].version == v
  {
    if ms != [] {
      var init := ms[..|ms| - 1];
      KeysAfterUp(eff, st, init, v);
      assert ms == init + [ms[|ms| - 1]];
      if j :| 0 <= j < |init| && init[j].version == v {
        assert ms[j].version == v;
      }
    }
  }

  lemma {:induction false} TodoMember(dir: Direction, table: map<int, string>, order: seq<Migration>, m: Migration)
    ensures m in Todo(dir, table, order) <==> m in order && Concerns(dir, table, m)
  {
    if order != [] {
      TodoMember(dir, table, order[..|order| - 1], m);
      assert order == order[..|order| - 1] + [order[|order| - 1]];
    }
  }

  // After Up moved the first a pending migrations, the others are pending, in the same order.
  lemma {:induction false} PendingAfter<S>(eff: Effect<S>, order: seq<Migration>, st: State<S>, a: nat)
    requires Strict(order) && a <= |Todo(Upward, st.table, order)|
    ensures var todo := Todo(Upward, st.table, order);
            Todo(Upward, MoveAll(eff, Upward, st, todo[..a]).table, order) == todo[a..]
  {
    var todo := Todo(Upward, st.table, order);
    var table' := MoveAll(eff, Upward, st, todo[..a]).table;
    var i := CutAt(Upward, st.table, order, a);
    var front, back := order[..i], order[i..];
    assert front + back == order;
    TodoAppend(Upward, st.table, front, back);
    TodoAppend(Upward, table', front, back);
    forall j | 0 <= j < |front| ensures front[j].version in table' {
      KeysAfterUp(eff, st, todo[..a], front[j].version);
      TodoMember(Upward, st.table, front, front[j]);
    }
    TodoNone(Upward, table', front);
    forall j | 0 <= j < |back| ensures back[j].version in table' <==> back[j].version in st.table {
      KeysAfterUp(eff, st, todo[..a], back[j].version);
      if k :| 0 <= k < a && todo[..a][k].version == back[j].version {
        TodoMember(Upward, st.table, front, todo[..a][k]);
      }
    }
    TodoSame(Upward, st.table, table', back);
  }

  lemma {:induction false} MoveInTwo<S>(eff: Effect<S>, dir: Direction, st: State<S>, todo: seq<Migration>, a: nat, b: nat)
    requires a + b <= |todo|
    ensures MoveAll(eff, dir, MoveAll(eff, dir, st, todo[..a]), todo[a..][..b]) == MoveAll(eff, dir, st, todo[..a + b])
  {
    MoveAllAppend(eff, dir, st, todo[..a], todo[a..][..b]);
    assert todo[..a] + todo[a..][..b] == todo[..a + b];
  }

  /** Up(a) then Up(b) is Up(a + b), from any version table whatever. */
  lemma {:induction false} UpsCompose<S>(eff: Effect<S>, order: seq<Migration>, a: int, b: int,
                                   st: State<S>, st1: State<S>, st2: State<S>, st3: State<S>, c1: nat, c2: nat, c3: nat)
    requires Strict(order) && a > 0 && b > 0
    requires Outcome(eff, Upward, order, a, st, st1, c1, None, false) && Outcome(eff, Upward, order, b, st1, st2, c2, None, false)
    requires Outcome(eff, Upward, order, a + b, st, st3, c3, None, false)
    ensures st3 == st2 && c3 == c1 + c2
  {
    var todo := Todo(Upward, st.table, order);
    PendingAfter(eff, order, st, c1);
    MoveInTwo(eff, Upward, st, todo, c1, c2);
  }
}
