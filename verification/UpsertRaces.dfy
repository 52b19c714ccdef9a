/** Any number of Upserts on one filter at the same time: each sends its statements of orm/table.go one
    by one, without a transaction around them. */
module UpsertRaces {
  import opened Strings
  import opened Sql
  import opened Database
  import opened Table
  import opened Repository

  type CallId = nat

  // One filter, and what each call would insert or change.
  datatype Setting = Setting(eng: Engine, where: seq<Entry>, create: CallId -> seq<Entry>, update: CallId -> seq<Entry>)

  ghost predicate Ready(g: Setting) {
    forall c :: UpsertReady(g.eng, g.where, g.create(c), g.update(c))
  }

  // Where a call is between two of its statements.
  datatype Call =
    | Unstarted
    | ToInsert
    | ToUpdate
    | ToLookAgain
    | Ended(result: Result<Row>)

  datatype State = State(rows: seq<Row>, calls: map<CallId, Call>)

  // A write may take effect although the call learns only of an error.
  datatype Step =
    | Look(call: CallId)
    | Insert(call: CallId, lost: bool)
    | Update(call: CallId, lost: bool)
    | LookAgain(call: CallId)
    | Fail(call: CallId)

  function CallOf(s: State, c: CallId): Call {
    if c in s.calls then s.calls[c] else Unstarted
  }

  function Matching(g: Setting, s: State): seq<Row> {
    Hits(g.eng, g.where, s.rows)
  }

  // The row a call inserts: its create values merged with the filter's equalities.
  function NewRow(g: Setting, c: CallId): Row {
    var m := MergeCreateAndWhere(g.create(c), g.where);
    Assign(map[], Keys(m), Vals(m))
  }

  predicate Enabled(s: State, step: Step) {
    match step
    case Look(c) => CallOf(s, c).Unstarted?
    case Insert(c, _) => CallOf(s, c).ToInsert?
    case Update(c, _) => CallOf(s, c).ToUpdate?
    case LookAgain(c) => CallOf(s, c).ToLookAgain?
    case Fail(c) => !CallOf(s, c).Ended?
  }

  // What a call does after its first lookup.
  function AfterLook(g: Setting, hit: seq<Row>, c: CallId): Call {
    if |hit| > 1 then Ended(Err(NonUnique))
    else if hit == [] then ToInsert
    else if g.update(c) == [] then ToLookAgain
    else ToUpdate
  }

  function LastResult(hit: seq<Row>): Result<Row> {
    if hit == [] then Err(NotFound)
    else if |hit| > 1 then Err(NonUnique)
    else Ok(hit[0])
  }

  function Written(lost: bool): Call {
    if lost then Ended(Err(DatabaseFailure)) else ToLookAgain
  }

  function Apply(g: Setting, s: State, step: Step): State {
    match step
    case Look(c) => s.(calls := s.calls[c := AfterLook(g, Matching(g, s), c)])
    case Insert(c, lost) => State(s.rows + [NewRow(g, c)], s.calls[c := Written(lost)])
    case Update(c, lost) =>
      State(PatchRows(Matcher(g.eng, g.where), Keys(g.update(c)), Vals(g.update(c)), s.rows), s.calls[c := Written(lost)])
    case LookAgain(c) => s.(calls := s.calls[c := Ended(LastResult(Matching(g, s)))])
    case Fail(c) => s.(calls := s.calls[c := Ended(Err(DatabaseFailure))])
  }

  ghost predicate IsRun(g: Setting, states: seq<State>, steps: seq<Step>) {
    && Ready(g) && |states| == |steps| + 1 && states[0].calls == map[]
    && forall i {:trigger steps[i]} :: 0 <= i < |steps| ==> Enabled(states[i], steps[i]) && states[i + 1] == Apply(g, states[i], steps[i])
  }

  lemma RunStep(g: Setting, states: seq<State>, steps: seq<Step>, i: nat)
    requires IsRun(g, states, steps) && i < |steps|
    ensures Ready(g) && Enabled(states[i], steps[i]) && states[i + 1] == Apply(g, states[i], steps[i])
  {
  }

  // The calls that inserted in the first n steps.
  function Inserters(steps: seq<Step>, n: nat): set<CallId>
    requires n <= |steps|
  {
    if n == 0 then {}
    else Inserters(steps, n - 1) + if steps[n - 1].Insert? then {steps[n - 1].call} else {}
  }

  // The call looked before anybody inserted.
  ghost predicate LookedFirst(steps: seq<Step>, c: CallId, n: nat)
    requires n <= |steps|
  {
    exists i :: 0 <= i < n && steps[i] == Look(c) && Inserters(steps, i) == {}
  }

  // ---------------------------------------------------------------- counting the matching rows

  lemma StepCounts(g: Setting, s: State, step: Step)
    requires Ready(g) && Enabled(s, step)
    ensures |Matching(g, Apply(g, s, step))| == |Matching(g, s)| + if step.Insert? then 1 else 0
  {
    match step
    case Insert(c, _) => InsertedHits(g.eng, s.rows, g.where, g.create(c), g.update(c));
    case Update(c, _) => UpdatedHits(g.eng, s.rows, g.where, g.create(c), g.update(c));
    case _ =>
  }

  // A call that has inserted will not do so again.
  lemma {:induction false} InsertsOnce(g: Setting, states: seq<State>, steps: seq<Step>, n: nat, c: CallId)
    requires IsRun(g, states, steps) && n <= |steps| && c in Inserters(steps, n)
    ensures CallOf(states[n], c).ToLookAgain? || CallOf(states[n], c).Ended?
  {
    assert Enabled(states[n - 1], steps[n - 1]) && states[n] == Apply(g, states[n - 1], steps[n - 1]);
    if c in Inserters(steps, n - 1) {
      InsertsOnce(g, states, steps, n - 1, c);
    }
  }

  /** At every moment of every run, the rows that match are those that matched at the start and one for
      each call that has inserted. */
  lemma {:induction false} MatchingCounted(g: Setting, states: seq<State>, steps: seq<Step>, n: nat)
    requires IsRun(g, states, steps) && n <= |steps|
    ensures |Matching(g, states[n])| == |Matching(g, states[0])| + |Inserters(steps, n)|
  {
    if n > 0 {
      MatchingCounted(g, states, steps, n - 1);
      RunStep(g, states, steps, n - 1);
      StepCounts(g, states[n - 1], steps[n - 1]);
      InserterNew(g, states, steps, n);
    }
  }

  lemma {:induction false} InserterIsNew(g: Setting, states: seq<State>, steps: seq<Step>, n: nat)
    requires IsRun(g, states, steps) && n < |steps| && steps[n].Insert?
    ensures steps[n].call !in Inserters(steps, n)
  {
    RunStep(g, states, steps, n);
    if steps[n].call in Inserters(steps, n) {
      InsertsOnce(g, states, steps, n, steps[n].call);
    }
  }

  lemma {:induction false} InserterNew(g: Setting, states: seq<State>, steps: seq<Step>, n: nat)
    requires IsRun(g, states, steps) && 0 < n <= |steps|
    ensures |Inserters(steps, n)| == |Inserters(steps, n - 1)| + if steps[n - 1].Insert? then 1 else 0
  {
    if steps[n - 1].Insert? {
      InserterIsNew(g, states, steps, n - 1);
    } else {
      assert Inserters(steps, n) == Inserters(steps, n - 1);
    }
  }

  /** What a call inserts: the columns of its create values and of the filter, create first. */
  lemma NewRowMerges(g: Setting, c: CallId)
    requires Ready(g)
    ensures Merges(NewRow(g, c), g.create(c), g.where)
  {
    var m := MergeCreateAndWhere(g.create(c), g.where);
    assert UpsertReady(g.eng, g.where, g.create(c), g.update(c));
    MergedIsColumnMap(g.create(c), g.where);
    forall i | 0 <= i < |m| ensures TrimSpace(m[i].key) == m[i].key {
      IdentIsTrimmed(m[i].key);
    }
    MergedRow(g.create(c), g.where, Keys(m), Vals(m));
  }

  // ---------------------------------------------------------------- who inserts

  // A call comes to insert by a lookup that finds nothing.
  lemma ToInsertFrom(g: Setting, s: State, step: Step, c: CallId)
    requires Enabled(s, step) && CallOf(Apply(g, s, step), c).ToInsert?
    ensures (step == Look(c) && Matching(g, s) == []) || CallOf(s, c).ToInsert?
  {
  }

  lemma {:induction false} InsertsAfterEmptyLook(g: Setting, states: seq<State>, steps: seq<Step>, n: nat, c: CallId) returns (i: nat)
    requires IsRun(g, states, steps) && n <= |steps| && CallOf(states[n], c).ToInsert?
    ensures i < n && steps[i] == Look(c) && Matching(g, states[i]) == []
  {
    RunStep(g, states, steps, n - 1);
    ToInsertFrom(g, states[n - 1], steps[n - 1], c);
    if CallOf(states[n - 1], c).ToInsert? {
      i := InsertsAfterEmptyLook(g, states, steps, n - 1, c);
    } else {
      i := n - 1;
    }
  }

  lemma ToUpdateFrom(g: Setting, s: State, step: Step, c: CallId)
    requires Enabled(s, step) && CallOf(Apply(g, s, step), c).ToUpdate?
    ensures (step == Look(c) && |Matching(g, s)| == 1 && g.update(c) != []) || CallOf(s, c).ToUpdate?
  {
  }

  /** A call updates only after it looked at exactly one match, and only if it has something to change. */
  lemma {:induction false} UpdatesAfterOneMatch(g: Setting, states: seq<State>, steps: seq<Step>, n: nat, c: CallId) returns (i: nat)
    requires IsRun(g, states, steps) && n <= |steps| && CallOf(states[n], c).ToUpdate?
    ensures i < n && steps[i] == Look(c) && |Matching(g, states[i])| == 1 && g.update(c) != []
  {
    RunStep(g, states, steps, n - 1);
    ToUpdateFrom(g, states[n - 1], steps[n - 1], c);
    if CallOf(states[n - 1], c).ToUpdate? {
      i := UpdatesAfterOneMatch(g, states, steps, n - 1, c);
    } else {
      i := n - 1;
    }
  }

  lemma {:induction false} EndedStays(g: Setting, states: seq<State>, steps: seq<Step>, i: nat, j: nat, c: CallId)
    requires IsRun(g, states, steps) && i <= j <= |steps| && CallOf(states[i], c).Ended?
    ensures CallOf(states[j], c) == CallOf(states[i], c)
    decreases j
  {
    if i < j {
      EndedStays(g, states, steps, i, j - 1, c);
      RunStep(g, states, steps, j - 1);
    }
  }

  /** A call whose first lookup is ambiguous ends with that error and writes nothing. */
  lemma AmbiguousEnds(g: Setting, states: seq<State>, steps: seq<Step>, i: nat, j: nat, c: CallId)
    requires IsRun(g, states, steps) && i < j <= |steps| && steps[i] == Look(c) && |Matching(g, states[i])| >= 2
    ensures CallOf(states[j], c) == Ended(Err(NonUnique)) && states[i + 1].rows == states[i].rows
    ensures j < |steps| ==> !(steps[j].Insert? && steps[j].call == c) && !(steps[j].Update? && steps[j].call == c)
  {
    RunStep(g, states, steps, i);
    EndedStays(g, states, steps, i + 1, j, c);
    if j < |steps| {
      RunStep(g, states, steps, j);
    }
  }

  /** Whoever inserts looked before anybody inserted, at a table without a match. */
  lemma {:induction false} InsertersLookedFirst(g: Setting, states: seq<State>, steps: seq<Step>, n: nat, c: CallId)
    requires IsRun(g, states, steps) && n <= |steps| && c in Inserters(steps, n)
    ensures |Matching(g, states[0])| == 0 && LookedFirst(steps, c, n)
  {
    if c in Inserters(steps, n - 1) {
      InsertersLookedFirst(g, states, steps, n - 1, c);
      var i :| 0 <= i < n - 1 && steps[i] == Look(c) && Inserters(steps, i) == {};
    } else {
      RunStep(g, states, steps, n - 1);
      var i := InsertsAfterEmptyLook(g, states, steps, n - 1, c);
      MatchingCounted(g, states, steps, i);
      assert |Inserters(steps, i)| == 0;
    }
  }

  // ---------------------------------------------------------------- the exact condition

  // Two calls have both inserted.
  ghost predicate Raced(steps: seq<Step>, n: nat)
    requires n <= |steps|
  {
    exists c, d :: c in Inserters(steps, n) && d in Inserters(steps, n) && c != d
  }

  lemma NoMembers(s: set<CallId>)
    ensures (forall c :: c !in s) ==> |s| == 0
  {
    if forall c :: c !in s {
      assert s == {};
    }
  }

  lemma TwoMembers(s: set<CallId>)
    ensures |s| > 1 <==> exists c, d :: c in s && d in s && c != d
  {
    if |s| > 1 {
      NoMembers(s);
      var c :| c in s;
      NoMembers(s - {c});
      assert |s - {c}| == |s| - 1;
      var d :| d in s - {c};
      assert d in s && d != c;
    }
    forall x, y | x in s && y in s && x != y ensures |s| > 1 {
      SubsetSize({x, y}, s);
    }
  }

  lemma {:induction false} SubsetSize(a: set<CallId>, b: set<CallId>)
    requires a <= b
    ensures |a| <= |b|
    decreases |a|
  {
    if |a| > 0 {
      NoMembers(a);
      var x :| x in a;
      SubsetSize(a - {x}, b - {x});
    }
  }

  /** In every run of any number of Upserts on one filter, from a table with at most one match: more
      than one row matches exactly when two calls inserted, and both of them looked, at a table without
      a match, before anybody had inserted.  With a match at the start nobody inserts. */
  lemma {:induction false} DuplicateExactlyWhenRaced(g: Setting, states: seq<State>, steps: seq<Step>, n: nat)
    requires IsRun(g, states, steps) && n <= |steps| && |Matching(g, states[0])| <= 1
    ensures |Matching(g, states[n])| > 1 <==> Raced(steps, n)
    ensures forall c :: c in Inserters(steps, n) ==> |Matching(g, states[0])| == 0 && LookedFirst(steps, c, n)
    ensures |Matching(g, states[0])| == 1 ==> |Matching(g, states[n])| == 1
  {
    MatchingCounted(g, states, steps, n);
    forall c | c in Inserters(steps, n) ensures |Matching(g, states[0])| == 0 && LookedFirst(steps, c, n) {
      InsertersLookedFirst(g, states, steps, n, c);
    }
    TwoMembers(Inserters(steps, n));
    if |Matching(g, states[0])| == 1 {
      assert Inserters(steps, n) == {};
    }
  }

  /** A call that gets to its last lookup succeeds exactly when one row matches then, and finds it
      ambiguous exactly when two calls have inserted by then; it never finds nothing. */
  lemma {:induction false} LastLookup(g: Setting, states: seq<State>, steps: seq<Step>, k: nat)
    requires IsRun(g, states, steps) && k < |steps| && steps[k].LookAgain? && |Matching(g, states[0])| <= 1
    ensures CallOf(states[k + 1], steps[k].call).Ended?
    ensures if Raced(steps, k) then CallOf(states[k + 1], steps[k].call).result == Err(NonUnique)
            else |Matching(g, states[k])| == 1 && CallOf(states[k + 1], steps[k].call).result == Ok(Matching(g, states[k])[0])
  {
    RunStep(g, states, steps, k);
    DuplicateExactlyWhenRaced(g, states, steps, k);
    SomethingMatches(g, states, steps, k, steps[k].call);
  }

  // A call past its first lookup that is not to insert has a match before it, or made one.
  lemma {:induction false} SomethingMatches(g: Setting, states: seq<State>, steps: seq<Step>, n: nat, c: CallId)
    requires IsRun(g, states, steps) && n <= |steps|
    requires CallOf(states[n], c).ToLookAgain? || CallOf(states[n], c).ToUpdate?
    ensures |Matching(g, states[n])| > 0
  {
    var s, step := states[n - 1], steps[n - 1];
    RunStep(g, states, steps, n - 1);
    StepCounts(g, s, step);
    if !step.Insert? && step != Look(c) {
      SomethingMatches(g, states, steps, n - 1, c);
    }
  }

  // ---------------------------------------------------------------- a run with two matches

  lemma Extend(g: Setting, states: seq<State>, steps: seq<Step>, step: Step) returns (states': seq<State>, steps': seq<Step>)
    requires IsRun(g, states, steps) && Enabled(states[|steps|], step)
    ensures steps' == steps + [step] && states' == states + [Apply(g, states[|steps|], step)]
    ensures states'[|steps'|] == Apply(g, states[|steps|], step) && states'[0] == states[0]
    ensures IsRun(g, states', steps')
  {
    states', steps' := states + [Apply(g, states[|steps|], step)], steps + [step];
  }

  // Calls 0 and 1 have both looked, and both have inserted.
  lemma BothInserted(g: Setting, rows: seq<Row>) returns (states: seq<State>, steps: seq<Step>)
    requires Ready(g) && Hits(g.eng, g.where, rows) == []
    ensures IsRun(g, states, steps) && states[0] == State(rows, map[]) && |steps| == 4
    ensures steps == [Look(0), Look(1), Insert(0, false), Insert(1, false)]
    ensures CallOf(states[4], 0) == CallOf(states[4], 1) == ToLookAgain
  {
    states, steps := Extend(g, [State(rows, map[])], [], Look(0));
    assert CallOf(states[1], 0) == ToInsert && states[1].rows == rows;
    states, steps := Extend(g, states, steps, Look(1));
    assert CallOf(states[2], 1) == ToInsert && CallOf(states[2], 0) == ToInsert;
    states, steps := Extend(g, states, steps, Insert(0, false));
    states, steps := Extend(g, states, steps, Insert(1, false));
  }

  /** Two calls that both look before either inserts leave two matching rows, and the last lookup of
      each is ambiguous. */
  lemma TwoUpsertsDuplicate(g: Setting, rows: seq<Row>) returns (states: seq<State>, steps: seq<Step>)
    requires Ready(g) && Hits(g.eng, g.where, rows) == []
    ensures IsRun(g, states, steps) && states[0].rows == rows && |steps| == 6
    ensures |Matching(g, states[6])| == 2
    ensures CallOf(states[6], 0) == CallOf(states[6], 1) == Ended(Err(NonUnique))
  {
    states, steps := BothInserted(g, rows);
    TwoMatch(g, states, steps);
    states, steps := Extend(g, states, steps, LookAgain(0));
    states, steps := Extend(g, states, steps, LookAgain(1));
  }

  lemma {:induction false} FourSteps(steps: seq<Step>)
    requires steps == [Look(0), Look(1), Insert(0, false), Insert(1, false)]
    ensures Inserters(steps, 4) == {0, 1}
  {
    assert Inserters(steps, 0) == {};
    assert Inserters(steps, 1) == {};
    assert Inserters(steps, 2) == {};
    assert Inserters(steps, 3) == {0};
  }

  lemma TwoMatch(g: Setting, states: seq<State>, steps: seq<Step>)
    requires IsRun(g, states, steps) && steps == [Look(0), Look(1), Insert(0, false), Insert(1, false)]
    requires Matching(g, states[0]) == []
    ensures |Matching(g, states[4])| == 2
  {
    MatchingCounted(g, states, steps, 4);
    FourSteps(steps);
  }
}
