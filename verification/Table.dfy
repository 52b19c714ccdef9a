/** The table repository of orm/table.go over one SQL table: what each operation does to the
    rows, stated through the meaning of its filter tree. */
module Table {
  import opened Strings
  import opened Sql
  import opened Where
  import opened WhereMeaning
  import opened Statements
  import opened StatementParse
  import opened Database
  import opened Spelling

  // `ph`: numbered placeholders for postgres.
  function PlaceholderDialect(dialect: string): Dialect {
    if ToLower(dialect) == "postgres" || ToLower(dialect) == "pg" then Numbered else Positional
  }

  predicate SupportsReturning(dialect: string) {
    ToLower(TrimSpace(dialect)) in ["postgres", "pg", "sqlite", "sqlite3"]
  }

  /** Placeholders are numbered exactly for `postgres` and `pg`, in any case but without blanks, and
      RETURNING is used exactly for these, `sqlite` and `sqlite3`, blanks around them or not. */
  lemma DialectsSpelled(dialect: string)
    ensures PlaceholderDialect(dialect) == Numbered <==> AnyCase(dialect, "postgres") || AnyCase(dialect, "pg")
    ensures SupportsReturning(dialect) <==>
            Spells(dialect, "postgres") || Spells(dialect, "pg") || Spells(dialect, "sqlite") || Spells(dialect, "sqlite3")
  {
    LowerMeans(dialect, "postgres");
    LowerMeans(dialect, "pg");
    LoweredSpells(dialect, "postgres");
    LoweredSpells(dialect, "pg");
    LoweredSpells(dialect, "sqlite");
    LoweredSpells(dialect, "sqlite3");
  }

  predicate HasStar(columns: seq<string>) {
    exists i :: 0 <= i < |columns| && TrimSpace(columns[i]) == "*"
  }

  /** A star counts with blanks around it. */
  lemma StarSpelled(columns: seq<string>)
    ensures HasStar(columns) <==> exists i :: 0 <= i < |columns| && Padded(columns[i], "*")
  {
    forall i | 0 <= i < |columns| ensures TrimSpace(columns[i]) == "*" <==> Padded(columns[i], "*") {
      TrimMeans(columns[i], "*");
    }
  }

  function Matcher(eng: Engine, where: seq<Entry>): Row -> bool {
    row => Matches(eng, where, row)
  }

  // ---------------------------------------------------------------- statements take effect on matching rows

  lemma MatcherSelects(eng: Engine, where: seq<Entry>, rows: seq<Row>)
    requires WellFormed(where)
    ensures var p := (row: Row) => Selected(eng, CondOf(where), row);
            && (forall row :: row in rows ==> p(row) == Matcher(eng, where)(row))
            && Filter(p, rows) == Filter(Matcher(eng, where), rows)
            && Filter(row => !p(row), rows) == Filter(row => !Matcher(eng, where)(row), rows)
  {
    var p := (row: Row) => Selected(eng, CondOf(where), row);
    forall row | row in rows ensures p(row) == Matcher(eng, where)(row) {
      SelectedIffMatches(eng, where, row);
    }
    FilterEqual(p, Matcher(eng, where), rows);
    FilterEqual(row => !p(row), row => !Matcher(eng, where)(row), rows);
  }

  lemma WhereOk(where: seq<Entry>, start: nat)
    requires WhereClauseOf(where, start).Ok?
    ensures WellFormed(where)
  {
    AcceptsExactlyWellFormed(where, start);
  }

  lemma UpdateRuns(d: Dialect, eng: Engine, table: string, rows: seq<Row>, name: string, where: seq<Entry>, patch: seq<Entry>,
                   returning: Option<seq<string>>)
    requires UpdateOf(name, where, patch, returning).Ok?
    ensures WellFormed(where) && |NormalizedValues(patch).value.0| == |NormalizedValues(patch).value.1|
    ensures var (cols, vals) := NormalizedValues(patch).value;
            var stmt := Received(d, UpdateOf(name, where, patch, returning).value);
            && stmt.Some? && stmt.value.UpdateStmt?
            && Run(eng, table, rows, stmt.value) ==
               if TrimSpace(name) != table || !Distinct(cols) then Err(DatabaseFailure)
               else
                 var done := PatchedOnly(Matcher(eng, where), cols, vals, rows);
                 Ok(Outcome(PatchRows(Matcher(eng, where), cols, vals, rows),
                            if returning.Some? then ProjectAll(SelectColumns(returning.value).value, done) else [], |done|))
  {
    var (cols, vals) := NormalizedValues(patch).value;
    ValidValuesLengths(patch);
    WhereOk(where, |vals|);
    UpdateReceived(d, name, where, patch, returning);
    MatcherSelects(eng, where, rows);
    var p := (row: Row) => Selected(eng, CondOf(where), row);
    assert PatchRows(p, cols, vals, rows) == PatchRows(Matcher(eng, where), cols, vals, rows);
  }

  lemma DeleteRuns(d: Dialect, eng: Engine, table: string, rows: seq<Row>, name: string, where: seq<Entry>)
    requires DeleteOf(name, where).Ok?
    ensures WellFormed(where)
    ensures var stmt := Received(d, DeleteOf(name, where).value);
            && stmt.Some? && stmt.value.DeleteStmt?
            && Run(eng, table, rows, stmt.value) ==
               if TrimSpace(name) != table then Err(DatabaseFailure)
               else Ok(Outcome(Filter(row => !Matches(eng, where, row), rows), [], |Filter(Matcher(eng, where), rows)|))
  {
    WhereOk(where, 0);
    DeleteReceived(d, name, where);
    MatcherSelects(eng, where, rows);
    FilterEqual(row => !Matcher(eng, where)(row), row => !Matches(eng, where, row), rows);
  }

  lemma SelectRuns(d: Dialect, eng: Engine, table: string, rows: seq<Row>, name: string, opts: FindOptions)
    requires SelectOf(name, opts).Ok?
    ensures WellFormed(opts.where)
    ensures var stmt := Received(d, SelectOf(name, opts).value);
            && stmt.Some? && stmt.value.SelectStmt?
            && Run(eng, table, rows, stmt.value) ==
               if TrimSpace(name) != table then Err(DatabaseFailure)
               else Ok(Outcome(rows, Found(eng, rows, opts), 0))
  {
    WhereOk(opts.where, 0);
    SelectReceived(d, name, opts);
    MatcherSelects(eng, opts.where, rows);
  }

  // What FindMany returns: the matching rows in order, cut to the window, restricted to the columns.
  function Found(eng: Engine, rows: seq<Row>, opts: FindOptions): seq<Row>
    requires SelectColumns(opts.columns).Ok?
  {
    ProjectAll(SelectColumns(opts.columns).value,
               Take(LimitOf(opts.limit), Drop(LimitOf(opts.offset),
                    Arrange(eng, OrdersOf(opts.order), Filter(Matcher(eng, opts.where), rows)))))
  }

  lemma FoundTwo(eng: Engine, rows: seq<Row>, where: seq<Entry>, columns: seq<string>)
    requires SelectColumns(columns).Ok?
    ensures var hit := Filter(Matcher(eng, where), rows);
            var records := Found(eng, rows, FindOptions(columns, where, [], 2, 0));
            && |records| == (if |hit| <= 2 then |hit| else 2)
            && (|hit| == 1 ==> records[0] == Project(SelectColumns(columns).value, hit[0]))
  {
    UnorderedStays(eng, Filter(Matcher(eng, where), rows));
  }

  lemma FoundAll(eng: Engine, rows: seq<Row>, where: seq<Entry>, columns: seq<string>)
    requires SelectColumns(columns).Ok?
    ensures Found(eng, rows, FindOptions(columns, where, [], 0, 0)) ==
            ProjectAll(SelectColumns(columns).value, Filter(Matcher(eng, where), rows))
  {
    assert OrdersOf([]) == [] && LimitOf(0) == None;
    UnorderedStays(eng, Filter(Matcher(eng, where), rows));
  }

  lemma ArrangedWindow(eng: Engine, order: seq<OrderBy>, rows: seq<Row>, limit: Option<Value>, offset: Option<Value>)
    requires Arranged(eng, order, rows)
    ensures Arranged(eng, order, Take(limit, Drop(offset, rows)))
  {
  }

  /** Whole rows come back in the order asked for, if the engine's comparison is an order; without
      LIMIT and OFFSET they are the matching rows, each as often as it is in the table. */
  lemma FoundInOrder(eng: Engine, rows: seq<Row>, opts: FindOptions)
    requires SelectColumns(opts.columns) == Ok(None)
    ensures OrdersRows(eng, OrdersOf(opts.order)) ==> Arranged(eng, OrdersOf(opts.order), Found(eng, rows, opts))
    ensures opts.limit <= 0 && opts.offset <= 0 ==> multiset(Found(eng, rows, opts)) == multiset(Filter(Matcher(eng, opts.where), rows))
  {
    var hit, order := Filter(Matcher(eng, opts.where), rows), OrdersOf(opts.order);
    ArrangeMeans(eng, order, hit);
    var window := Take(LimitOf(opts.limit), Drop(LimitOf(opts.offset), Arrange(eng, order, hit)));
    assert Found(eng, rows, opts) == window;
    if OrdersRows(eng, order) {
      ArrangedWindow(eng, order, Arrange(eng, order, hit), LimitOf(opts.limit), LimitOf(opts.offset));
    }
  }

  // The engine tells the two rows apart by this column in neither direction.
  predicate Tied(eng: Engine, col: string, a: Row, b: Row) {
    !eng(Lt, ColumnOf(a, col), ColumnOf(b, col)) && !eng(Lt, ColumnOf(b, col), ColumnOf(a, col))
  }

  ghost predicate Asymmetric(eng: Engine) {
    forall x, y :: eng(Lt, x, y) ==> !eng(Lt, y, x)
  }

  lemma {:induction false} NotBefore(eng: Engine, order: seq<OrderBy>, a: Row, b: Row, k: nat)
    requires Asymmetric(eng) && k < |order| && !Before(eng, order, b, a) && forall m :: 0 <= m < k ==> Tied(eng, order[m].column, a, b)
    ensures var x, y := ColumnOf(a, order[k].column), ColumnOf(b, order[k].column);
            if order[k].desc then !eng(Lt, x, y) else !eng(Lt, y, x)
  {
    if k > 0 {
      assert Tied(eng, order[0].column, a, b);
      NotBefore(eng, order[1..], a, b, k - 1);
    }
  }

  /** Of two whole rows that come back one before the other, the first is not greater by the first key that
      tells them apart, or not less if that key is descending. */
  lemma AscendingOrDescending(eng: Engine, rows: seq<Row>, opts: FindOptions, i: nat, j: nat, k: nat)
    requires SelectColumns(opts.columns) == Ok(None) && OrdersRows(eng, OrdersOf(opts.order)) && Asymmetric(eng)
    requires i < j < |Found(eng, rows, opts)| && k < |opts.order|
    requires forall m :: 0 <= m < k ==> Tied(eng, TrimSpace(opts.order[m].column), Found(eng, rows, opts)[i], Found(eng, rows, opts)[j])
    ensures var c := TrimSpace(opts.order[k].column);
            var x, y := ColumnOf(Found(eng, rows, opts)[i], c), ColumnOf(Found(eng, rows, opts)[j], c);
            if opts.order[k].desc then !eng(Lt, x, y) else !eng(Lt, y, x)
  {
    FoundInOrder(eng, rows, opts);
    var order, a, b := OrdersOf(opts.order), Found(eng, rows, opts)[i], Found(eng, rows, opts)[j];
    forall m | 0 <= m < k ensures Tied(eng, order[m].column, a, b) {
      assert order[m].column == TrimSpace(opts.order[m].column);
    }
    NotBefore(eng, order, a, b, k);
  }

  // The part of n rows that limit and offset leave; what is not positive sets none.
  function WindowStart(n: nat, offset: int): nat {
    if offset <= 0 then 0 else if offset < n then offset else n
  }

  function WindowEnd(n: nat, limit: int, offset: int): nat {
    if limit <= 0 || WindowStart(n, offset) + limit > n then n else WindowStart(n, offset) + limit
  }

  lemma WindowCut(rows: seq<Row>, limit: int, offset: int)
    ensures Take(LimitOf(limit), Drop(LimitOf(offset), rows)) == rows[WindowStart(|rows|, offset)..WindowEnd(|rows|, limit, offset)]
  {
    var from := WindowStart(|rows|, offset);
    assert Drop(LimitOf(offset), rows) == rows[from..];
    if 0 < limit < |rows| - from {
      assert rows[from..][..limit] == rows[from..from + limit];
    }
  }

  /** Without an order the matching rows come back in table order, from the offset on and at most as many as
      the limit. */
  lemma FoundWindow(eng: Engine, rows: seq<Row>, opts: FindOptions)
    requires SelectColumns(opts.columns) == Ok(None) && opts.order == []
    ensures var hit := Filter(Matcher(eng, opts.where), rows);
            Found(eng, rows, opts) == hit[WindowStart(|hit|, opts.offset)..WindowEnd(|hit|, opts.limit, opts.offset)]
  {
    var hit := Filter(Matcher(eng, opts.where), rows);
    UnorderedStays(eng, hit);
    WindowCut(hit, opts.limit, opts.offset);
    var window := Take(LimitOf(opts.limit), Drop(LimitOf(opts.offset), hit));
    assert OrdersOf(opts.order) == [] && ProjectAll(None, window) == window;
  }

  // ---------------------------------------------------------------- the fallback without RETURNING

  function ApplyPatchTo(row: Row, patch: seq<Entry>): Row {
    if patch == [] then row
    else ApplyPatchTo(row, patch[..|patch| - 1])[patch[|patch| - 1].key := patch[|patch| - 1].val]
  }

  function ProjectPresent(cols: seq<string>, row: Row): Row {
    map c | c in cols && c in row :: row[c]
  }

  method ApplyPatch(rows: seq<Row>, patch: seq<Entry>) returns (out: seq<Row>)
    ensures |out| == |rows| && forall i :: 0 <= i < |rows| ==> out[i] == ApplyPatchTo(rows[i], patch)
  {
    out := [];
    for i := 0 to |rows|
      invariant |out| == i && forall j :: 0 <= j < i ==> out[j] == ApplyPatchTo(rows[j], patch)
    {
      var next := rows[i];
      for k := 0 to |patch|
        invariant next == ApplyPatchTo(rows[i], patch[..k])
      {
        assert patch[..k + 1][..k] == patch[..k];
        next := next[patch[k].key := patch[k].val];
      }
      assert patch[..|patch|] == patch;
      out := out + [next];
    }
  }

  // One record cut down to the columns it has.
  method ProjectRecord(row: Row, columns: seq<string>) returns (r: Result<Row>)
    requires ValidColumns(columns).Ok? ==> ValidColumns(columns).value.Some?
    requires ValidColumns(columns).Err? ==> ValidColumns(columns).error == InvalidInput
    requires !HasStar(columns)
    ensures ValidColumns(columns).Ok? ==> r == Ok(ProjectPresent(ValidColumns(columns).value.value, row))
    ensures ValidColumns(columns).Err? ==> r == Err(InvalidInput)
  {
    var next: Row := map[];
    ghost var valid: seq<string> := [];
    for k := 0 to |columns|
      invariant ValidColumns(columns[..k]) == Ok(Some(valid))
      invariant next == ProjectPresent(valid, row)
    {
      ValidColumnsStep(columns[..k], columns[k]);
      assert columns[..k] + [columns[k]] == columns[..k + 1];
      var col := ValidIdentifier(columns[k]);
      if col.Err? {
        ValidColumnsPrefix(columns, k + 1);
        return Err(col.error);
      }
      if col.value in row {
        next := next[col.value := row[col.value]];
      }
      valid := valid + [col.value];
    }
    assert columns[..|columns|] == columns;
    return Ok(next);
  }

  method ProjectRecords(rows: seq<Row>, columns: seq<string>) returns (r: Result<seq<Row>>)
    ensures columns == [] || HasStar(columns) ==> r == Ok(rows)
    ensures columns != [] && !HasStar(columns) && ValidColumns(columns).Ok? ==>
              && ValidColumns(columns).value.Some?
              && r.Ok? && |r.value| == |rows|
              && forall i :: 0 <= i < |rows| ==> r.value[i] == ProjectPresent(ValidColumns(columns).value.value, rows[i])
    ensures r.Err? ==> r.error == InvalidInput && ValidColumns(columns).Err?
  {
    if columns == [] || HasStar(columns) {
      return Ok(rows);
    }
    StarFree(columns);
    var projected: seq<Row> := [];
    for i := 0 to |rows|
      invariant |projected| == i
      invariant i > 0 ==> ValidColumns(columns).Ok?
      invariant ValidColumns(columns).Ok? ==>
                  forall j :: 0 <= j < i ==> projected[j] == ProjectPresent(ValidColumns(columns).value.value, rows[j])
    {
      var next :- ProjectRecord(rows[i], columns);
      projected := projected + [next];
    }
    return Ok(projected);
  }

  lemma {:induction false} StarFree(columns: seq<string>)
    requires !HasStar(columns)
    ensures ValidColumns(columns).Ok? ==> ValidColumns(columns).value.Some?
    ensures ValidColumns(columns).Err? ==> ValidColumns(columns) == Err(InvalidInput)
  {
    if columns != [] {
      assert TrimSpace(columns[0]) != "*";
      forall i | 0 <= i < |columns[1..]| ensures TrimSpace(columns[1..][i]) != "*" {
        assert columns[1..][i] == columns[i + 1];
      }
      StarFree(columns[1..]);
    }
  }

  lemma {:induction false} ValidColumnsStep(cs: seq<string>, c: string)
    requires ValidColumns(cs).Ok? && ValidColumns(cs).value.Some? && TrimSpace(c) != "*"
    ensures ValidColumns(cs + [c]) ==
            if ValidIdentifier(c).Ok? then Ok(Some(ValidColumns(cs).value.value + [ValidIdentifier(c).value]))
            else Err(InvalidInput)
  {
    TrimTwice(c);
    if cs == [] {
      assert cs + [c] == [c] && [c][1..] == [];
      assert ValidColumns([]) == Ok(Some([]));
      if ValidIdentifier(c).Ok? {
        assert [ValidIdentifier(c).value] + [] == [] + [ValidIdentifier(c).value];
      }
    } else {
      assert (cs + [c])[1..] == cs[1..] + [c];
      ValidColumnsStep(cs[1..], c);
      var v, vs := ValidIdentifier(TrimSpace(cs[0])).value, ValidColumns(cs[1..]).value.value;
      if ValidIdentifier(c).Ok? {
        assert [v] + (vs + [ValidIdentifier(c).value]) == [v] + vs + [ValidIdentifier(c).value];
      }
    }
  }

  lemma {:induction false} ValidColumnsPrefix(cs: seq<string>, k: nat)
    requires k <= |cs| && ValidColumns(cs[..k]).Err?
    ensures ValidColumns(cs).Err?
  {
    if k > 0 {
      assert cs[..k][1..] == cs[1..][..k - 1];
      if TrimSpace(cs[0]) != "*" && ValidIdentifier(TrimSpace(cs[0])).Ok? {
        ValidColumnsPrefix(cs[1..], k - 1);
      }
    }
  }

  // ---------------------------------------------------------------- value lists

  function Keys(es: seq<Entry>): seq<string> {
    seq(|es|, i requires 0 <= i < |es| => es[i].key)
  }

  function Vals(es: seq<Entry>): seq<Value> {
    seq(|es|, i requires 0 <= i < |es| => es[i].val)
  }

  // A Go map whose keys are usable as column names without trimming.
  predicate ColumnMap(es: seq<Entry>) {
    Distinct(Keys(es)) && forall i :: 0 <= i < |es| ==> IsIdent(es[i].key)
  }

  lemma {:induction false} ColumnMapNormalizes(es: seq<Entry>)
    requires ColumnMap(es)
    ensures ValidValues(es) == Ok((Keys(es), Vals(es)))
  {
    if es != [] {
      var init, last := es[..|es| - 1], es[|es| - 1];
      assert Keys(init) == Keys(es)[..|es| - 1];
      ColumnMapNormalizes(init);
      IdentIsTrimmed(last.key);
      assert Keys(es) == Keys(init) + [last.key] && Vals(es) == Vals(init) + [last.val];
    }
  }

  // mergeCreateAndWhere: the create values win over the where values.
  function MergeCreateAndWhere(create: seq<Entry>, where: seq<Entry>): seq<Entry> {
    KeepMissing(where, Keys(create)) + create
  }

  function KeepMissing(where: seq<Entry>, taken: seq<string>): seq<Entry> {
    if where == [] then []
    else
      var last := where[|where| - 1];
      KeepMissing(where[..|where| - 1], taken) + if last.key in taken then [] else [last]
  }

  // ---------------------------------------------------------------- filters that fix columns to values

  predicate ColumnEqualities(where: seq<Entry>) {
    && where != [] && ColumnMap(where)
    && forall i :: 0 <= i < |where| ==> KindOf(where[i].key) == Column && !IsOperatorObject(where[i].val)
  }

  predicate Consistent(create: seq<Entry>, where: seq<Entry>) {
    forall i, j :: 0 <= i < |create| && 0 <= j < |where| && create[i].key == where[j].key ==> create[i].val == where[j].val
  }

  predicate DisjointKeys(a: seq<Entry>, b: seq<Entry>) {
    forall i, j :: 0 <= i < |a| && 0 <= j < |b| ==> a[i].key != b[j].key
  }

  // Equality of a non-NULL value with itself holds.
  ghost predicate ReflexiveEq(eng: Engine) {
    forall v :: eng(Eq, v, v)
  }

  lemma {:induction false} EqualitiesWellFormed(where: seq<Entry>)
    requires ColumnEqualities(where)
    ensures WellFormed(where)
  {
    forall i | 0 <= i < |where| ensures WellFormedEntry(where[i]) {
      IdentIsTrimmed(where[i].key);
    }
  }

  predicate Fixes(where: seq<Entry>, row: Row) {
    forall i :: 0 <= i < |where| ==> ColumnOf(row, where[i].key) == where[i].val
  }

  lemma {:induction false} FixedRowMatches(eng: Engine, where: seq<Entry>, row: Row)
    requires ReflexiveEq(eng) && Fixes(where, row)
    requires forall i :: 0 <= i < |where| ==>
               IsIdent(where[i].key) && KindOf(where[i].key) == Column && !IsOperatorObject(where[i].val)
    ensures where != [] ==> Meaning(eng, where, row) == Some(True)
  {
    if where != [] {
      var last := where[|where| - 1];
      FixedRowMatches(eng, where[..|where| - 1], row);
      IdentIsTrimmed(last.key);
      assert ColumnOf(row, last.key) == last.val;
      assert EntryMeaning(eng, last, row) == Some(True);
    }
  }

  lemma {:induction false} SameColumnsSameMeaning(eng: Engine, where: seq<Entry>, row: Row, row': Row)
    requires forall i :: 0 <= i < |where| ==>
               IsIdent(where[i].key) && KindOf(where[i].key) == Column && !IsOperatorObject(where[i].val)
    requires forall i :: 0 <= i < |where| ==> ColumnOf(row, where[i].key) == ColumnOf(row', where[i].key)
    ensures Meaning(eng, where, row) == Meaning(eng, where, row')
  {
    if where != [] {
      var last := where[|where| - 1];
      SameColumnsSameMeaning(eng, where[..|where| - 1], row, row');
      IdentIsTrimmed(last.key);
      assert ColumnOf(row, last.key) == ColumnOf(row', last.key);
    }
  }

  lemma {:induction false} KeepMissingMember(where: seq<Entry>, taken: seq<string>, e: Entry)
    ensures e in KeepMissing(where, taken) <==> e in where && e.key !in taken
  {
    if where != [] {
      KeepMissingMember(where[..|where| - 1], taken, e);
      assert where == where[..|where| - 1] + [where[|where| - 1]];
    }
  }

  lemma {:induction false} KeepMissingDistinct(where: seq<Entry>, taken: seq<string>)
    requires Distinct(Keys(where))
    ensures Distinct(Keys(KeepMissing(where, taken)))
  {
    if where != [] {
      var init, last := where[..|where| - 1], where[|where| - 1];
      assert Keys(init) == Keys(where)[..|where| - 1];
      KeepMissingDistinct(init, taken);
      var kept := KeepMissing(init, taken);
      forall i | 0 <= i < |kept| ensures kept[i].key != last.key {
        KeepMissingMember(init, taken, kept[i]);
        var k :| 0 <= k < |init| && init[k] == kept[i];
        assert Keys(where)[k] == kept[i].key && Keys(where)[|where| - 1] == last.key;
      }
      assert Keys(kept + [last]) == Keys(kept) + [last.key];
      assert Keys(kept + []) == Keys(kept);
    }
  }

  lemma MergedIsColumnMap(create: seq<Entry>, where: seq<Entry>)
    requires ColumnMap(create) && ColumnMap(where)
    ensures ColumnMap(MergeCreateAndWhere(create, where))
  {
    var kept := KeepMissing(where, Keys(create));
    KeepMissingDistinct(where, Keys(create));
    forall i | 0 <= i < |kept| ensures IsIdent(kept[i].key) && kept[i].key !in Keys(create) {
      KeepMissingMember(where, Keys(create), kept[i]);
    }
    assert Keys(kept + create) == Keys(kept) + Keys(create);
  }

  // The inserted row carries every value the filter asks for.
  lemma MergedRowFixes(create: seq<Entry>, where: seq<Entry>)
    requires ColumnMap(create) && ColumnMap(where) && Consistent(create, where)
    ensures var m := MergeCreateAndWhere(create, where);
            Fixes(where, Assign(map[], Keys(m), Vals(m)))
  {
    var m := MergeCreateAndWhere(create, where);
    MergedIsColumnMap(create, where);
    var row := Assign(map[], Keys(m), Vals(m));
    forall i | 0 <= i < |where| ensures ColumnOf(row, where[i].key) == where[i].val {
      var e := where[i];
      KeepMissingMember(where, Keys(create), e);
      if e.key in Keys(create) {
        var k :| 0 <= k < |create| && create[k].key == e.key;
        var at := |m| - |create| + k;
        assert m[at] == create[k];
        AssignLookup(map[], Keys(m), Vals(m), at);
      } else {
        var kept := KeepMissing(where, Keys(create));
        var k :| 0 <= k < |kept| && kept[k] == e;
        assert m[k] == e;
        AssignLookup(map[], Keys(m), Vals(m), k);
      }
    }
  }

  // An update of other columns leaves the filter as true or false as it was.
  lemma UntouchedStillMatches(eng: Engine, where: seq<Entry>, update: seq<Entry>, row: Row)
    requires ColumnEqualities(where) && ColumnMap(update) && DisjointKeys(update, where)
    ensures Matches(eng, where, Assign(row, Keys(update), Vals(update))) <==> Matches(eng, where, row)
  {
    var row' := Assign(row, Keys(update), Vals(update));
    forall i | 0 <= i < |where| ensures ColumnOf(row, where[i].key) == ColumnOf(row', where[i].key) {
      AssignOther(row, Keys(update), Vals(update), where[i].key);
    }
    SameColumnsSameMeaning(eng, where, row, row');
  }

  // ---------------------------------------------------------------- the empty-filter guard

  lemma {:induction false} FilterNothing(p: Row -> bool, rows: seq<Row>)
    requires forall row :: row in rows ==> !p(row)
    ensures Filter(p, rows) == []
  {
    if rows != [] {
      FilterNothing(p, rows[..|rows| - 1]);
    }
  }

  // Without a field condition at any depth every row matches.
  lemma UnconditionalMatches(eng: Engine, where: seq<Entry>, rows: seq<Row>)
    requires !HasField(where)
    ensures Filter(Matcher(eng, where), rows) == rows
    ensures forall row :: Matches(eng, where, row)
  {
    forall row ensures Matches(eng, where, row) {
      AbsentIffNoField(eng, where, row);
    }
    FilterAll(Matcher(eng, where), rows);
  }

  /** An accepted Delete goes out without a condition, and then empties the table, exactly when its
      filter holds no field condition at any depth; the guard looks at the top level only. */
  lemma UnconditionalDelete(d: Dialect, eng: Engine, table: string, rows: seq<Row>, name: string, where: seq<Entry>)
    requires DeleteOf(name, where).Ok?
    ensures var stmt := Received(d, DeleteOf(name, where).value);
            && stmt.Some? && stmt.value.DeleteStmt?
            && (stmt.value.cond.None? <==> !HasField(where))
            && (!HasField(where) && TrimSpace(name) == table ==>
                  Run(eng, table, rows, stmt.value) == Ok(Outcome([], [], |rows|)))
  {
    DeleteRuns(d, eng, table, rows, name, where);
    DeleteReceived(d, name, where);
    ChainMeans(eng, where, map[]);
    AbsentIffNoField(eng, where, map[]);
    if !HasField(where) {
      UnconditionalMatches(eng, where, rows);
      FilterNothing(row => !Matches(eng, where, row), rows);
    }
  }

  /** The same for Update: without a field condition at any depth it patches every row. */
  lemma UnconditionalUpdate(d: Dialect, eng: Engine, table: string, rows: seq<Row>, name: string, where: seq<Entry>, patch: seq<Entry>)
    requires UpdateOf(name, where, patch, None).Ok?
    ensures |NormalizedValues(patch).value.0| == |NormalizedValues(patch).value.1|
    ensures var stmt := Received(d, UpdateOf(name, where, patch, None).value);
            var (cols, vals) := NormalizedValues(patch).value;
            && stmt.Some? && stmt.value.UpdateStmt?
            && (stmt.value.cond.None? <==> !HasField(where))
            && (!HasField(where) && TrimSpace(name) == table && Distinct(cols) ==>
                  Run(eng, table, rows, stmt.value) ==
                  Ok(Outcome(seq(|rows|, i requires 0 <= i < |rows| => Assign(rows[i], cols, vals)), [], |rows|)))
  {
    UpdateRuns(d, eng, table, rows, name, where, patch, None);
    UpdateReceived(d, name, where, patch, None);
    ChainMeans(eng, where, map[]);
    AbsentIffNoField(eng, where, map[]);
    if !HasField(where) {
      UnconditionalMatches(eng, where, rows);
      var (cols, vals) := NormalizedValues(patch).value;
      assert PatchRows(Matcher(eng, where), cols, vals, rows) ==
             seq(|rows|, i requires 0 <= i < |rows| => Assign(rows[i], cols, vals));
    }
  }

  lemma {:induction false} FilterAll(p: Row -> bool, rows: seq<Row>)
    requires forall row :: row in rows ==> p(row)
    ensures Filter(p, rows) == rows
  {
    if rows != [] {
      FilterAll(p, rows[..|rows| - 1]);
    }
  }

  /** A filter that passes the guard and constrains nothing. */
  lemma GuardIsShallow(name: string, col: string, v: Value)
    requires IsIdent(name) && IsIdent(col)
    ensures var where := [Entry("AND", List([]))];
            DeleteOf(name, where).Ok? && UpdateOf(name, where, [Entry(col, v)], None).Ok? && !HasField(where)
  {
    var where, patch := [Entry("AND", List([]))], [Entry(col, v)];
    assert ToUpper(TrimSpace("AND")) == "AND";
    assert KindOf("AND") == AndKey;
    assert forall i :: 0 <= i < |where| ==> WellFormedEntry(where[i]);
    AcceptsExactlyWellFormed(where, 0);
    AcceptsExactlyWellFormed(where, 1);
    IdentIsTrimmed(name);
    IdentIsTrimmed(col);
    assert patch[..0] == [];
    assert ValidValues(patch) == Ok(([] + [col], [] + [v]));
  }
}
