/** `Table` of orm/table.go: the operations on a live table, and what they leave behind. */
module Repository {
  import opened Strings
  import opened Sql
  import opened Where
  import opened WhereMeaning
  import opened Statements
  import opened StatementParse
  import opened SqlText
  import opened StatementText
  import opened Database
  import opened Table

  // The rows a filter selects, in table order.
  function Hits(eng: Engine, where: seq<Entry>, rows: seq<Row>): seq<Row> {
    Filter(Matcher(eng, where), rows)
  }

  function UniqueOptions(where: seq<Entry>, columns: seq<string>): FindOptions {
    FindOptions(columns, where, [], 2, 0)
  }

  class Repo {
    const server: Server
    const name: string
    const dialect: string

    constructor (server: Server, name: string, dialect: string)
      ensures this.server == server && this.name == name && this.dialect == dialect
    {
      this.server, this.name, this.dialect := server, name, dialect;
    }

    method FindMany(opts: FindOptions) returns (r: Result<seq<Row>>)
      modifies server
      ensures server.rows == old(server.rows)
      ensures r.Ok? ==> SelectOf(name, opts).Ok? && r.value == Found(server.eng, server.rows, opts)
      ensures r.Ok? ==> AllPlain(server.reserved, SelectOf(name, opts).value.toks)
      ensures r.Ok? && SelectColumns(opts.columns).value.None? && OrdersRows(server.eng, OrdersOf(opts.order)) ==>
                Arranged(server.eng, OrdersOf(opts.order), r.value)
      ensures r.Err? ==> r.error == DatabaseFailure || SelectOf(name, opts) == Err(r.error)
    {
      var q :- SelectQuery(name, opts);
      var d := PlaceholderDialect(dialect);
      SelectRuns(d, server.eng, server.table, server.rows, name, opts);
      SelectPrintable(name, opts);
      TextReceivedIff(server.reserved, d, q);
      if SelectColumns(opts.columns).value.None? {
        FoundInOrder(server.eng, server.rows, opts);
      }
      var out, _ := server.Execute(d, q);
      if out.Err? {
        return Err(out.error);
      }
      return Ok(out.value.records);
    }

    // At most one row matches, and it is returned; two or more are an error.
    method FindUnique(where: seq<Entry>, columns: seq<string>) returns (r: Result<Option<Row>>)
      modifies server
      ensures server.rows == old(server.rows)
      ensures var hit := Hits(server.eng, where, server.rows);
              && (r.Ok? ==> where != [] && SelectOf(name, UniqueOptions(where, columns)).Ok? && |hit| <= 1)
              && (r.Ok? ==> r.value == if hit == [] then None else Some(Project(SelectColumns(columns).value, hit[0])))
              && (r == Err(NonUnique) && SelectOf(name, UniqueOptions(where, columns)).Ok? ==> |hit| >= 2)
              && (r.Err? ==> r.error == DatabaseFailure || r.error == NonUnique || (where == [] && r.error == InvalidInput) ||
                             SelectOf(name, UniqueOptions(where, columns)) == Err(r.error))
    {
      if where == [] {
        return Err(InvalidInput);
      }
      var records :- FindMany(UniqueOptions(where, columns));
      FoundTwo(server.eng, server.rows, where, columns);
      if |records| == 0 {
        return Ok(None);
      }
      if |records| > 1 {
        return Err(NonUnique);
      }
      return Ok(Some(records[0]));
    }

    method FindUniqueOrThrow(where: seq<Entry>, columns: seq<string>) returns (r: Result<Row>)
      modifies server
      ensures server.rows == old(server.rows)
      ensures var hit := Hits(server.eng, where, server.rows);
              && (r.Ok? ==> SelectOf(name, UniqueOptions(where, columns)).Ok? && |hit| == 1)
              && (r.Ok? ==> r.value == Project(SelectColumns(columns).value, hit[0]))
              && (r == Err(NonUnique) && SelectOf(name, UniqueOptions(where, columns)).Ok? ==> |hit| >= 2)
              && (r == Err(NotFound) && SelectOf(name, UniqueOptions(where, columns)).Ok? ==> hit == [])
              && (r.Err? ==> r.error == DatabaseFailure || r.error == NonUnique || r.error == NotFound || (where == [] && r.error == InvalidInput) ||
                             SelectOf(name, UniqueOptions(where, columns)) == Err(r.error))
    {
      var record :- FindUnique(where, columns);
      if record.None? {
        return Err(NotFound);
      }
      return Ok(record.value);
    }

    method Create(values: seq<Entry>) returns (r: Result<nat>, ghost lost: bool)
      modifies server
      ensures lost ==> r.Err?
      ensures r.Err? && !lost ==> server.rows == old(server.rows)
      ensures r.Ok? || lost ==> InsertOf(name, values, None).Ok?
      ensures r.Ok? || lost ==>
                var (cols, vals) := NormalizedValues(values).value;
                |cols| == |vals| && Distinct(cols) && server.rows == old(server.rows) + [Assign(map[], cols, vals)]
      ensures r.Err? ==> r.error == DatabaseFailure || InsertOf(name, values, None) == Err(r.error)
    {
      lost := false;
      var q :- InsertQuery(name, values, None);
      var d := PlaceholderDialect(dialect);
      InsertReceived(d, name, values, None);
      var out;
      out, lost := server.Execute(d, q);
      r := if out.Ok? then Ok(out.value.affected) else Err(out.error);
    }

    // Exactly the rows of which the filter tree is true are patched.
    method Update(where: seq<Entry>, patch: seq<Entry>) returns (r: Result<nat>, ghost lost: bool)
      modifies server
      ensures lost ==> r.Err?
      ensures r.Err? && !lost ==> server.rows == old(server.rows)
      ensures r.Ok? || lost ==> UpdateOf(name, where, patch, None).Ok?
      ensures r.Ok? || lost ==>
                var (cols, vals) := NormalizedValues(patch).value;
                && |cols| == |vals|
                && server.rows == PatchRows(Matcher(server.eng, where), cols, vals, old(server.rows))
                && (r.Ok? ==> r.value == |Hits(server.eng, where, old(server.rows))|)
      ensures r.Err? ==> r.error == DatabaseFailure || UpdateOf(name, where, patch, None) == Err(r.error)
    {
      lost := false;
      var q :- UpdateQuery(name, where, patch, None);
      var d := PlaceholderDialect(dialect);
      UpdateRuns(d, server.eng, server.table, server.rows, name, where, patch, None);
      var out;
      out, lost := server.Execute(d, q);
      r := if out.Ok? then Ok(out.value.affected) else Err(out.error);
    }

    // Exactly the rows of which the filter tree is true are removed.
    method Delete(where: seq<Entry>) returns (r: Result<nat>, ghost lost: bool)
      modifies server
      ensures lost ==> r.Err?
      ensures r.Err? && !lost ==> server.rows == old(server.rows)
      ensures r.Ok? || lost ==> DeleteOf(name, where).Ok?
      ensures r.Ok? || lost ==>
                && server.rows == Filter(row => !Matches(server.eng, where, row), old(server.rows))
                && (r.Ok? ==> r.value == |Hits(server.eng, where, old(server.rows))|)
      ensures r.Err? ==> r.error == DatabaseFailure || DeleteOf(name, where) == Err(r.error)
    {
      lost := false;
      var q :- DeleteQuery(name, where);
      var d := PlaceholderDialect(dialect);
      DeleteRuns(d, server.eng, server.table, server.rows, name, where);
      var out;
      out, lost := server.Execute(d, q);
      r := if out.Ok? then Ok(out.value.affected) else Err(out.error);
    }

    /** Success means exactly one row matches now and it is the one returned, and no row that
        did not match has changed.  Given a filter of column equalities, consistent create values
        and an update of other columns, only the database or an ambiguous filter can make it fail. */
    method Upsert(where: seq<Entry>, create: seq<Entry>, update: seq<Entry>) returns (r: Result<Row>)
      modifies server
      ensures r.Ok? ==> Hits(server.eng, where, server.rows) == [r.value]
      ensures r.Ok? ==> UpsertedRows(server.eng, old(server.rows), server.rows, where, create, update)
      ensures r.Ok? && Hits(server.eng, where, old(server.rows)) == [] ==>
                exists row :: server.rows == old(server.rows) + [row] && Merges(row, create, where)
      ensures |Hits(server.eng, where, old(server.rows))| >= 2 ==> r.Err? && server.rows == old(server.rows)
      ensures |Hits(server.eng, where, old(server.rows))| >= 2 && SelectOf(name, UniqueOptions(where, [])).Ok? && where != [] ==>
                r.error == NonUnique || r.error == DatabaseFailure
      ensures ValidIdentifier(name).Ok? && UpsertReady(server.eng, where, create, update) && r.Err? ==>
                || r.error == DatabaseFailure
                || (r.error == NonUnique && |Hits(server.eng, where, old(server.rows))| >= 2)
    {
      if where == [] {
        return Err(InvalidInput);
      }
      ghost var before := server.rows;
      ghost var ready := ValidIdentifier(name).Ok? && UpsertReady(server.eng, where, create, update);
      if ready {
        ReadyBuilds(name, server.eng, where, create, update);
      }
      var existing :- FindUnique(where, []);
      if existing.None? {
        var merged := MergeCreateAndWhere(create, where);
        var _, _ :- Create(merged);
        InsertMerges(create, where);
        if ready {
          InsertedHits(server.eng, before, where, create, update);
        }
      } else if update != [] {
        var _, _ :- Update(where, update);
        if ready {
          UpdatedHits(server.eng, before, where, create, update);
        }
      }
      r := FindUniqueOrThrow(where, []);
    }

    /** Both paths patch the same rows; with explicit columns and trimmed keys the fallback for
        dialects without RETURNING also returns the same records.  For no columns or a star it returns
        only the columns that filter and patch name, and it never succeeds if the filter has an AND, OR
        or NOT key, because that key goes out as a column. */
    method UpdateManyAndReturn(where: seq<Entry>, patch: seq<Entry>, columns: seq<string>) returns (r: Result<seq<Row>>, ghost lost: bool)
      modifies server
      ensures lost ==> r.Err?
      ensures r.Err? && !lost ==> server.rows == old(server.rows)
      ensures r.Ok? || lost ==> UpdatedRows(server.eng, where, patch, old(server.rows), server.rows)
      ensures r.Ok? && !SupportsReturning(dialect) && (columns == [] || HasStar(columns)) ==>
                LoadedRecords(server.eng, where, patch, old(server.rows), r.value) && !HasLogicalKey(where)
      ensures r.Ok? && (SupportsReturning(dialect) || (columns != [] && !HasStar(columns) && ColumnMap(patch))) ==>
                UpdatedRecords(server.eng, where, patch, columns, old(server.rows), r.value)
    {
      lost := false;
      if where == [] {
        return Err(InvalidInput), false;
      }
      if !SupportsReturning(dialect) {
        r, lost := UpdateThenPatch(where, patch, columns);
        return;
      }
      var d := PlaceholderDialect(dialect);
      var q :- UpdateQuery(name, where, patch, Some(columns));
      UpdateRuns(d, server.eng, server.table, server.rows, name, where, patch, Some(columns));
      var out;
      out, lost := server.Execute(d, q);
      r := if out.Ok? then Ok(out.value.records) else Err(out.error);
    }

    // The branch for dialects without RETURNING.
    method UpdateThenPatch(where: seq<Entry>, patch: seq<Entry>, columns: seq<string>) returns (r: Result<seq<Row>>, ghost lost: bool)
      modifies server
      ensures lost ==> r.Err?
      ensures r.Err? && !lost ==> server.rows == old(server.rows)
      ensures r.Ok? || lost ==> UpdatedRows(server.eng, where, patch, old(server.rows), server.rows)
      ensures r.Ok? && columns != [] && !HasStar(columns) && ColumnMap(patch) ==>
                UpdatedRecords(server.eng, where, patch, columns, old(server.rows), r.value)
      ensures r.Ok? && (columns == [] || HasStar(columns)) ==>
                LoadedRecords(server.eng, where, patch, old(server.rows), r.value) && !HasLogicalKey(where)
    {
      lost := false;
      ghost var rows := server.rows;
      var load := if columns == [] || HasStar(columns) then ColumnHints(where, patch) else columns;
      var before :- FindMany(FindOptions(load, where, [], 0, 0));
      FoundAll(server.eng, rows, where, load);
      var affected;
      affected, lost := Update(where, patch);
      if affected.Err? {
        return Err(affected.error), lost;
      }
      var updated := ApplyPatch(before, patch);
      r := ProjectRecords(updated, columns);
      if columns == [] || HasStar(columns) {
        if HasLogicalKey(where) {
          LogicalHintUnread(server.reserved, name, where, patch);
        }
      } else {
        StarFree(columns);
        if ColumnMap(patch) {
          ExplicitReturned(server.eng, where, patch, columns, rows, updated, r);
        }
      }
    }
  }

  // The records of the fallback for explicit columns, from those read before the update.
  lemma ExplicitReturned(eng: Engine, where: seq<Entry>, patch: seq<Entry>, columns: seq<string>, rows: seq<Row>,
                         updated: seq<Row>, r: Result<seq<Row>>)
    requires ColumnMap(patch) && patch != [] && columns != [] && ValidColumns(columns).Ok? && ValidColumns(columns).value.Some?
    requires |updated| == |Hits(eng, where, rows)|
    requires forall i :: 0 <= i < |updated| ==>
                         updated[i] == ApplyPatchTo(Project(ValidColumns(columns).value, Hits(eng, where, rows)[i]), patch)
    requires r.Ok? && |r.value| == |updated|
    requires forall i :: 0 <= i < |updated| ==> r.value[i] == ProjectPresent(ValidColumns(columns).value.value, updated[i])
    ensures UpdatedRecords(eng, where, patch, columns, rows, r.value)
  {
    FallbackRecords(Hits(eng, where, rows), patch, columns);
  }

  predicate UpdatedRows(eng: Engine, where: seq<Entry>, patch: seq<Entry>, before: seq<Row>, after: seq<Row>) {
    && NormalizedValues(patch).Ok?
    && var (cols, vals) := NormalizedValues(patch).value;
    && |cols| == |vals|
    && after == PatchRows(Matcher(eng, where), cols, vals, before)
  }

  predicate UpdatedRecords(eng: Engine, where: seq<Entry>, patch: seq<Entry>, columns: seq<string>, before: seq<Row>, records: seq<Row>) {
    && NormalizedValues(patch).Ok? && SelectColumns(columns).Ok?
    && var (cols, vals) := NormalizedValues(patch).value;
    && |cols| == |vals|
    && records == ProjectAll(SelectColumns(columns).value, PatchedOnly(Matcher(eng, where), cols, vals, before))
  }

  // The matching rows cut to the columns that filter and patch name, with the patch applied.
  predicate LoadedRecords(eng: Engine, where: seq<Entry>, patch: seq<Entry>, before: seq<Row>, records: seq<Row>) {
    && SelectColumns(ColumnHints(where, patch)).Ok?
    && var hit := Hits(eng, where, before);
       && |records| == |hit|
       && forall i :: 0 <= i < |hit| ==> records[i] == LoadedRecord(SelectColumns(ColumnHints(where, patch)).value, hit[i], patch)
  }

  // ---------------------------------------------------------------- what Upsert leaves behind

  ghost predicate UpsertReady(eng: Engine, where: seq<Entry>, create: seq<Entry>, update: seq<Entry>) {
    && ReflexiveEq(eng)
    && ColumnEqualities(where) && ColumnMap(create) && ColumnMap(update)
    && Consistent(create, where) && DisjointKeys(update, where)
  }

  // Without a match one row is appended; with a match only the matching row is patched.
  predicate UpsertedRows(eng: Engine, before: seq<Row>, after: seq<Row>, where: seq<Entry>, create: seq<Entry>, update: seq<Entry>) {
    var values := if Hits(eng, where, before) == [] then MergeCreateAndWhere(create, where) else update;
    if values == [] then after == before
    else
      && NormalizedValues(values).Ok?
      && var (cols, vals) := NormalizedValues(values).value;
      && |cols| == |vals|
      && after == if Hits(eng, where, before) == [] then before + [Assign(map[], cols, vals)]
                  else PatchRows(Matcher(eng, where), cols, vals, before)
  }

  // The row has exactly the columns that create and where name, with the values of create, and those of
  // where under the keys that create lacks.
  ghost predicate Merges(row: Row, create: seq<Entry>, where: seq<Entry>) {
    && (forall c :: c in row <==> (exists e :: e in create + where && TrimSpace(e.key) == c))
    && (forall e :: e in create ==> ColumnOf(row, TrimSpace(e.key)) == e.val)
    && (forall e :: e in where && (forall f :: f in create ==> f.key != e.key) ==> ColumnOf(row, TrimSpace(e.key)) == e.val)
  }

  lemma MergedHas(create: seq<Entry>, where: seq<Entry>, e: Entry)
    ensures e in create ==> e in MergeCreateAndWhere(create, where)
    ensures e in MergeCreateAndWhere(create, where) ==> e in create + where
    ensures e in where && (forall f :: f in create ==> f.key != e.key) ==> e in MergeCreateAndWhere(create, where)
  {
    KeepMissingMember(where, Keys(create), e);
    if e.key in Keys(create) {
      var k :| 0 <= k < |create| && Keys(create)[k] == e.key;
      assert create[k] in create && create[k].key == e.key;
    }
  }

  lemma MergedValue(m: seq<Entry>, cols: seq<string>, vals: seq<Value>, e: Entry)
    requires Normalizes(m, cols, vals) && Distinct(cols) && e in m
    ensures TrimSpace(e.key) in Assign(map[], cols, vals) && Assign(map[], cols, vals)[TrimSpace(e.key)] == e.val
  {
    var i :| 0 <= i < |m| && m[i] == e;
    AssignLookup(map[], cols, vals, i);
  }

  lemma MergedColumn(create: seq<Entry>, where: seq<Entry>, cols: seq<string>, vals: seq<Value>, c: string)
    requires Normalizes(MergeCreateAndWhere(create, where), cols, vals) && c in cols
    ensures exists e :: e in create + where && TrimSpace(e.key) == c
  {
    var m := MergeCreateAndWhere(create, where);
    var i :| 0 <= i < |cols| && cols[i] == c;
    MergedHas(create, where, m[i]);
  }

  // An entry of where whose key create has too leaves that column to create.
  lemma NamedByMerge(create: seq<Entry>, where: seq<Entry>, e: Entry) returns (f: Entry)
    requires e in create + where
    ensures f in MergeCreateAndWhere(create, where) && f.key == e.key
  {
    MergedHas(create, where, e);
    f := e;
    if e !in create && exists g :: g in create && g.key == e.key {
      f :| f in create && f.key == e.key;
      MergedHas(create, where, f);
    }
  }

  lemma MergedColumns(create: seq<Entry>, where: seq<Entry>, cols: seq<string>, vals: seq<Value>, c: string)
    requires Normalizes(MergeCreateAndWhere(create, where), cols, vals) && Distinct(cols)
    ensures c in Assign(map[], cols, vals) <==> exists e :: e in create + where && TrimSpace(e.key) == c
  {
    AssignKeys(map[], cols, vals, c);
    if c in cols {
      MergedColumn(create, where, cols, vals, c);
    }
    if e :| e in create + where && TrimSpace(e.key) == c {
      var f := NamedByMerge(create, where, e);
      MergedValue(MergeCreateAndWhere(create, where), cols, vals, f);
    }
  }

  lemma MergedValues(create: seq<Entry>, where: seq<Entry>, cols: seq<string>, vals: seq<Value>, e: Entry)
    requires Normalizes(MergeCreateAndWhere(create, where), cols, vals) && Distinct(cols)
    requires e in create || (e in where && forall f :: f in create ==> f.key != e.key)
    ensures ColumnOf(Assign(map[], cols, vals), TrimSpace(e.key)) == e.val
  {
    MergedHas(create, where, e);
    MergedValue(MergeCreateAndWhere(create, where), cols, vals, e);
  }

  /** The inserted row of an Upsert: where and create put together, create first. */
  lemma MergedRow(create: seq<Entry>, where: seq<Entry>, cols: seq<string>, vals: seq<Value>)
    requires Normalizes(MergeCreateAndWhere(create, where), cols, vals) && Distinct(cols)
    ensures Merges(Assign(map[], cols, vals), create, where)
  {
    forall c ensures c in Assign(map[], cols, vals) <==> exists e :: e in create + where && TrimSpace(e.key) == c {
      MergedColumns(create, where, cols, vals, c);
    }
    forall e | e in create || (e in where && forall f :: f in create ==> f.key != e.key)
      ensures ColumnOf(Assign(map[], cols, vals), TrimSpace(e.key)) == e.val
    {
      MergedValues(create, where, cols, vals, e);
    }
  }

  lemma InsertMerges(create: seq<Entry>, where: seq<Entry>)
    ensures var m := MergeCreateAndWhere(create, where);
            NormalizedValues(m).Ok? && Distinct(NormalizedValues(m).value.0) ==>
              var (cols, vals) := NormalizedValues(m).value;
              |cols| == |vals| && Merges(Assign(map[], cols, vals), create, where)
  {
    var m := MergeCreateAndWhere(create, where);
    if NormalizedValues(m).Ok? && Distinct(NormalizedValues(m).value.0) {
      ValidValuesNormalize(m);
      MergedRow(create, where, NormalizedValues(m).value.0, NormalizedValues(m).value.1);
    }
  }

  lemma ReadyBuilds(name: string, eng: Engine, where: seq<Entry>, create: seq<Entry>, update: seq<Entry>)
    requires ValidIdentifier(name).Ok? && UpsertReady(eng, where, create, update)
    ensures SelectOf(name, UniqueOptions(where, [])).Ok?
    ensures var m := MergeCreateAndWhere(create, where);
            m != [] && InsertOf(name, m, None).Ok? && NormalizedValues(m) == Ok((Keys(m), Vals(m)))
    ensures update != [] ==> UpdateOf(name, where, update, None).Ok? && NormalizedValues(update) == Ok((Keys(update), Vals(update)))
  {
    EqualitiesWellFormed(where);
    AcceptsExactlyWellFormed(where, 0);
    AcceptsExactlyWellFormed(where, |update|);
    assert OrderClause([]) == Ok([]);
    MergedIsColumnMap(create, where);
    var m := MergeCreateAndWhere(create, where);
    if create == [] {
      KeepMissingMember(where, Keys(create), where[0]);
    }
    ColumnMapNormalizes(m);
    ColumnMapNormalizes(update);
  }

  lemma InsertedHits(eng: Engine, before: seq<Row>, where: seq<Entry>, create: seq<Entry>, update: seq<Entry>)
    requires UpsertReady(eng, where, create, update)
    ensures var m := MergeCreateAndWhere(create, where);
            var row := Assign(map[], Keys(m), Vals(m));
            Hits(eng, where, before + [row]) == Hits(eng, where, before) + [row]
  {
    var m := MergeCreateAndWhere(create, where);
    var row := Assign(map[], Keys(m), Vals(m));
    MergedRowFixes(create, where);
    FixedRowMatches(eng, where, row);
    FilterAppend(Matcher(eng, where), before, row);
  }

  lemma UpdatedHits(eng: Engine, before: seq<Row>, where: seq<Entry>, create: seq<Entry>, update: seq<Entry>)
    requires UpsertReady(eng, where, create, update)
    ensures |Hits(eng, where, PatchRows(Matcher(eng, where), Keys(update), Vals(update), before))| == |Hits(eng, where, before)|
  {
    forall row | row in before && Matcher(eng, where)(row) ensures Matcher(eng, where)(Assign(row, Keys(update), Vals(update))) {
      UntouchedStillMatches(eng, where, update, row);
    }
    FilterPatched(Matcher(eng, where), Keys(update), Vals(update), before);
  }

  // ---------------------------------------------------------------- the fallback without RETURNING

  function ColumnHints(where: seq<Entry>, patch: seq<Entry>): seq<string> {
    Keys(where) + Keys(KeepMissing(patch, Keys(where)))
  }

  // What the fallback returns for a row it read before the update.
  function FallbackRecord(cs: seq<string>, row: Row, patch: seq<Entry>): Row {
    ProjectPresent(cs, ApplyPatchTo(Project(Some(cs), row), patch))
  }

  lemma {:induction false} ApplyPatchIsAssign(row: Row, patch: seq<Entry>)
    ensures ApplyPatchTo(row, patch) == Assign(row, Keys(patch), Vals(patch))
  {
    if patch != [] {
      var init := patch[..|patch| - 1];
      ApplyPatchIsAssign(row, init);
      assert Keys(init) == Keys(patch)[..|patch| - 1] && Vals(init) == Vals(patch)[..|patch| - 1];
    }
  }

  lemma {:induction false} AssignKeeps(row: Row, cols: seq<string>, vals: seq<Value>)
    requires |cols| == |vals|
    ensures row.Keys <= Assign(row, cols, vals).Keys
  {
    if cols != [] {
      AssignKeeps(row, cols[..|cols| - 1], vals[..|vals| - 1]);
    }
  }

  // `cols` and `vals` are the columns and values of the patch as they reach the SET clause.
  predicate Normalizes(patch: seq<Entry>, cols: seq<string>, vals: seq<Value>) {
    && |cols| == |vals| == |patch|
    && forall i :: 0 <= i < |patch| ==> cols[i] == TrimSpace(patch[i].key) && vals[i] == patch[i].val
  }

  lemma {:induction false} ValidValuesNormalize(patch: seq<Entry>)
    requires ValidValues(patch).Ok?
    ensures Normalizes(patch, ValidValues(patch).value.0, ValidValues(patch).value.1)
  {
    if patch != [] {
      ValidValuesNormalize(patch[..|patch| - 1]);
    }
  }

  // An untrimmed key never names a requested column of the record read back.
  lemma FallbackColumn(cs: seq<string>, row: Row, patch: seq<Entry>, cols: seq<string>, vals: seq<Value>, i: nat)
    requires Normalizes(patch, cols, vals) && Distinct(cols)
    requires i < |cols| && cols[i] in cs && IsIdent(cols[i])
    ensures var f := FallbackRecord(cs, row, patch);
            && cols[i] in f && f[cols[i]] == (if patch[i].key == cols[i] then vals[i] else ColumnOf(row, cols[i]))
            && ColumnOf(Assign(row, cols, vals), cols[i]) == vals[i]
  {
    var c, base := cols[i], Project(Some(cs), row);
    IdentIsTrimmed(c);
    ApplyPatchIsAssign(base, patch);
    AssignKeeps(base, Keys(patch), Vals(patch));
    AssignLookup(row, cols, vals, i);
    KeysDistinct(patch, cols, vals);
    if patch[i].key == c {
      AssignLookup(base, Keys(patch), Vals(patch), i);
    } else {
      forall k | 0 <= k < |patch| ensures Keys(patch)[k] != c {
        assert k != i ==> cols[k] != c;
      }
      AssignOther(base, Keys(patch), Vals(patch), c);
    }
  }

  lemma KeysDistinct(patch: seq<Entry>, cols: seq<string>, vals: seq<Value>)
    requires Normalizes(patch, cols, vals) && Distinct(cols)
    ensures Distinct(Keys(patch))
  {
    forall i, j | 0 <= i < j < |patch| ensures Keys(patch)[i] != Keys(patch)[j] {
      assert cols[i] != cols[j];
    }
  }

  lemma OtherColumn(cs: seq<string>, row: Row, patch: seq<Entry>, cols: seq<string>, vals: seq<Value>, c: string)
    requires Normalizes(patch, cols, vals) && c in cs && IsIdent(c) && c !in cols
    ensures var f := FallbackRecord(cs, row, patch);
            c in f && f[c] == ColumnOf(row, c) == ColumnOf(Assign(row, cols, vals), c)
  {
    var base := Project(Some(cs), row);
    IdentIsTrimmed(c);
    ApplyPatchIsAssign(base, patch);
    AssignKeeps(base, Keys(patch), Vals(patch));
    forall k | 0 <= k < |patch| ensures Keys(patch)[k] != c {
      assert cols[k] != c;
    }
    AssignOther(base, Keys(patch), Vals(patch), c);
    AssignOther(row, cols, vals, c);
  }

  // Every patched and requested column has a trimmed key or already holds the new value.
  predicate Harmless(cs: seq<string>, row: Row, patch: seq<Entry>) {
    forall i :: 0 <= i < |patch| && TrimSpace(patch[i].key) in cs ==>
                  patch[i].key == TrimSpace(patch[i].key) || ColumnOf(row, TrimSpace(patch[i].key)) == patch[i].val
  }

  /** For a given row the fallback returns what RETURNING would exactly when every patched and
      requested column either has a trimmed key or already held the new value. */
  lemma FallbackExact(cs: seq<string>, row: Row, patch: seq<Entry>, cols: seq<string>, vals: seq<Value>)
    requires Normalizes(patch, cols, vals) && Distinct(cols)
    requires forall c :: c in cs ==> IsIdent(c)
    ensures FallbackRecord(cs, row, patch) == Project(Some(cs), Assign(row, cols, vals)) <==> Harmless(cs, row, patch)
  {
    var f, g := FallbackRecord(cs, row, patch), Project(Some(cs), Assign(row, cols, vals));
    forall c | c in cs && c !in cols ensures c in f && f[c] == g[c] {
      OtherColumn(cs, row, patch, cols, vals, c);
    }
    forall i | 0 <= i < |cols| && cols[i] in cs
      ensures cols[i] in f
      ensures f[cols[i]] == g[cols[i]] <==> patch[i].key == cols[i] || ColumnOf(row, cols[i]) == vals[i]
    {
      FallbackColumn(cs, row, patch, cols, vals, i);
    }
    assert f.Keys == g.Keys;
  }

  /** A patch key with blanks around it: the record keeps the old value. */
  lemma UntrimmedKeyKeepsOldValue()
    ensures var row: Row, patch := map["a" := Num(1)], [Entry(" a ", Num(2))];
            && Normalizes(patch, ["a"], [Num(2)]) && !Harmless(["a"], row, patch)
            && FallbackRecord(["a"], row, patch) != Project(Some(["a"]), Assign(row, ["a"], [Num(2)]))
  {
    var row: Row, patch := map["a" := Num(1)], [Entry(" a ", Num(2))];
    assert TrimLeft(" a ") == TrimLeft("a ") == "a ";
    assert TrimRight("a ") == TrimRight("a") == "a";
    assert TrimSpace(patch[0].key) == "a" && "a" in ["a"];
    FallbackExact(["a"], row, patch, ["a"], [Num(2)]);
  }

  // ---------------------------------------------------------------- the fallback for no columns or a star

  // What the fallback returns for a row when no columns or a star were asked for.
  function LoadedRecord(cols: Columns, row: Row, patch: seq<Entry>): Row {
    ApplyPatchTo(Project(cols, row), patch)
  }

  // An AND, OR or NOT at the top level.
  predicate HasLogicalKey(where: seq<Entry>) {
    exists i :: 0 <= i < |where| && !KindOf(where[i].key).Column?
  }

  lemma LogicalKeyReserved(reserved: set<string>, key: string)
    requires !KindOf(key).Column?
    ensures !PlainName(reserved, TrimSpace(key))
  {
  }

  lemma {:induction false} TrimmedInColumns(cs: seq<string>, c: string)
    requires c in cs && ValidColumns(cs).Ok? && ValidColumns(cs).value.Some?
    ensures TrimSpace(TrimSpace(c)) in ValidColumns(cs).value.value
  {
    if cs[0] != c {
      TrimmedInColumns(cs[1..], c);
    }
  }

  lemma {:induction false} PatchKeysValid(patch: seq<Entry>, i: nat)
    requires ValidValues(patch).Ok? && i < |patch|
    ensures IsIdent(TrimSpace(patch[i].key))
  {
    if i < |patch| - 1 {
      PatchKeysValid(patch[..|patch| - 1], i);
    }
  }

  // Keys that a filter and a patch may have are no stars.
  lemma HintsStarFree(where: seq<Entry>, patch: seq<Entry>)
    requires WellFormed(where) && ValidValues(patch).Ok?
    ensures !HasStar(ColumnHints(where, patch))
  {
    var h := ColumnHints(where, patch);
    forall i | 0 <= i < |h| ensures TrimSpace(h[i]) != "*" {
      HintsAreKeys(where, patch, h[i]);
      assert h[i] in h;
      if h[i] in KeySet(where) {
        var e :| e in where && e.key == h[i];
        assert WellFormedEntry(e);
      } else {
        var e :| e in patch && e.key == h[i];
        var k :| 0 <= k < |patch| && patch[k] == e;
        PatchKeysValid(patch, k);
      }
    }
  }

  // Hints with an AND, OR or NOT among them cannot be selected.
  lemma LogicalHintUnread(reserved: set<string>, name: string, where: seq<Entry>, patch: seq<Entry>)
    requires HasLogicalKey(where) && ValidValues(patch).Ok?
    requires SelectOf(name, FindOptions(ColumnHints(where, patch), where, [], 0, 0)).Ok?
    ensures !AllPlain(reserved, SelectOf(name, FindOptions(ColumnHints(where, patch), where, [], 0, 0)).value.toks)
  {
    var i :| 0 <= i < |where| && !KindOf(where[i].key).Column?;
    var h, c := ColumnHints(where, patch), where[i].key;
    assert Keys(where)[i] == c;
    assert h[i] == c;
    WhereOk(where, 0);
    HintsStarFree(where, patch);
    StarFree(h);
    TrimmedInColumns(h, c);
    TrimTwice(c);
    LogicalKeyReserved(reserved, c);
    SelectedColumnUnread(reserved, name, FindOptions(h, where, [], 0, 0), TrimSpace(c));
  }

  predicate IdentKeys(es: seq<Entry>) {
    forall i :: 0 <= i < |es| ==> IsIdent(es[i].key)
  }

  function KeySet(es: seq<Entry>): set<string> {
    set e | e in es :: e.key
  }

  lemma {:induction false} IdentColumns(cs: seq<string>)
    requires forall i :: 0 <= i < |cs| ==> IsIdent(cs[i])
    ensures ValidColumns(cs) == Ok(Some(cs))
  {
    if cs != [] {
      IdentIsTrimmed(cs[0]);
      IdentColumns(cs[1..]);
      assert cs[0] != "*";
      assert [cs[0]] + cs[1..] == cs;
    }
  }

  lemma HintsAreKeys(where: seq<Entry>, patch: seq<Entry>, c: string)
    ensures c in ColumnHints(where, patch) <==> c in KeySet(where) || c in KeySet(patch)
  {
    var kept := KeepMissing(patch, Keys(where));
    KeepMissingKeys(patch, Keys(where), c);
    KeysMember(where, c);
    KeysMember(kept, c);
  }

  lemma KeysMember(es: seq<Entry>, c: string)
    ensures c in Keys(es) <==> c in KeySet(es)
  {
    if c in Keys(es) {
      var i :| 0 <= i < |es| && Keys(es)[i] == c;
      assert es[i] in es;
    }
    if c in KeySet(es) {
      var e :| e in es && e.key == c;
      var i :| 0 <= i < |es| && es[i] == e;
      assert Keys(es)[i] == c;
    }
  }

  lemma {:induction false} KeepMissingKeys(es: seq<Entry>, keys: seq<string>, c: string)
    ensures c in KeySet(KeepMissing(es, keys)) <==> c in KeySet(es) && c !in keys
  {
    forall e ensures e in KeepMissing(es, keys) <==> e in es && e.key !in keys {
      KeepMissingMember(es, keys, e);
    }
  }

  lemma {:induction false} HintsAreColumns(where: seq<Entry>, patch: seq<Entry>)
    requires where != [] && IdentKeys(where) && IdentKeys(patch)
    ensures SelectColumns(ColumnHints(where, patch)) == Ok(Some(ColumnHints(where, patch)))
  {
    var h := ColumnHints(where, patch);
    forall i | 0 <= i < |h| ensures IsIdent(h[i]) {
      HintsAreKeys(where, patch, h[i]);
      assert h[i] in h;
    }
    IdentColumns(h);
  }

  lemma {:induction false} AssignKeys(row: Row, cols: seq<string>, vals: seq<Value>, c: string)
    requires |cols| == |vals|
    ensures c in Assign(row, cols, vals) <==> c in row || c in cols
  {
    if cols != [] {
      AssignKeys(row, cols[..|cols| - 1], vals[..|vals| - 1], c);
      assert cols == cols[..|cols| - 1] + [cols[|cols| - 1]];
    }
  }

  // Where both have the column, the record agrees with the row after the update.
  lemma LoadedColumn(h: seq<string>, row: Row, patch: seq<Entry>, c: string)
    requires Distinct(Keys(patch)) && (c in Keys(patch) || (c in h && c in row))
    ensures c in LoadedRecord(Some(h), row, patch) && c in Assign(row, Keys(patch), Vals(patch))
    ensures LoadedRecord(Some(h), row, patch)[c] == Assign(row, Keys(patch), Vals(patch))[c]
  {
    var base := Project(Some(h), row);
    ApplyPatchIsAssign(base, patch);
    AssignKeys(base, Keys(patch), Vals(patch), c);
    AssignKeys(row, Keys(patch), Vals(patch), c);
    if c in Keys(patch) {
      var i :| 0 <= i < |patch| && Keys(patch)[i] == c;
      AssignLookup(base, Keys(patch), Vals(patch), i);
      AssignLookup(row, Keys(patch), Vals(patch), i);
    } else {
      AssignOther(base, Keys(patch), Vals(patch), c);
      AssignOther(row, Keys(patch), Vals(patch), c);
    }
  }

  /** For no columns or a star and trimmed keys, the fallback returns the updated row exactly when the
      row has no columns but those named in the filter and the patch, and has all those of the filter. */
  lemma StarFallbackExact(where: seq<Entry>, row: Row, patch: seq<Entry>)
    requires where != [] && IdentKeys(where) && ColumnMap(patch)
    ensures SelectColumns(ColumnHints(where, patch)).Ok?
    ensures LoadedRecord(SelectColumns(ColumnHints(where, patch)).value, row, patch) == Assign(row, Keys(patch), Vals(patch)) <==>
            row.Keys + KeySet(patch) == KeySet(where) + KeySet(patch)
  {
    var h := ColumnHints(where, patch);
    HintsAreColumns(where, patch);
    var f, g := LoadedRecord(Some(h), row, patch), Assign(row, Keys(patch), Vals(patch));
    ApplyPatchIsAssign(Project(Some(h), row), patch);
    forall c
      ensures c in f <==> c in KeySet(where) + KeySet(patch)
      ensures c in g <==> c in row.Keys + KeySet(patch)
    {
      AssignKeys(Project(Some(h), row), Keys(patch), Vals(patch), c);
      AssignKeys(row, Keys(patch), Vals(patch), c);
      KeysMember(patch, c);
      HintsAreKeys(where, patch, c);
    }
    assert f.Keys == KeySet(where) + KeySet(patch) && g.Keys == row.Keys + KeySet(patch);
    if f.Keys == g.Keys {
      forall c | c in f ensures f[c] == g[c] {
        KeysMember(patch, c);
        HintsAreKeys(where, patch, c);
        LoadedColumn(h, row, patch, c);
      }
    }
  }

  /** A row with a column that neither filter nor patch names: the fallback drops it. */
  lemma StarFallbackDropsColumns()
    ensures var where, patch := [Entry("id", Num(1))], [Entry("a", Num(2))];
            var row: Row := map["id" := Num(1), "a" := Num(1), "b" := Num(3)];
            && SelectColumns(ColumnHints(where, patch)).Ok?
            && LoadedRecord(SelectColumns(ColumnHints(where, patch)).value, row, patch) != Assign(row, Keys(patch), Vals(patch))
  {
    var where, patch := [Entry("id", Num(1))], [Entry("a", Num(2))];
    var row: Row := map["id" := Num(1), "a" := Num(1), "b" := Num(3)];
    StarFallbackExact(where, row, patch);
    assert "b" in row.Keys + KeySet(patch) && "b" !in KeySet(where) + KeySet(patch);
  }

  lemma {:induction false} ValidColumnsIdents(columns: seq<string>, c: string)
    requires ValidColumns(columns).Ok? && ValidColumns(columns).value.Some? && c in ValidColumns(columns).value.value
    ensures IsIdent(c)
  {
    if c != ValidColumns(columns).value.value[0] {
      ValidColumnsIdents(columns[1..], c);
    }
  }

  lemma FallbackRecords(hit: seq<Row>, patch: seq<Entry>, columns: seq<string>)
    requires ColumnMap(patch)
    ensures ValidValues(patch) == Ok((Keys(patch), Vals(patch)))
    ensures ValidColumns(columns).Ok? && ValidColumns(columns).value.Some? ==>
              var cs := ValidColumns(columns).value.value;
              forall i :: 0 <= i < |hit| ==>
                FallbackRecord(cs, hit[i], patch) == Project(Some(cs), Assign(hit[i], Keys(patch), Vals(patch)))
  {
    ColumnMapNormalizes(patch);
    ValidValuesNormalize(patch);
    if ValidColumns(columns).Ok? && ValidColumns(columns).value.Some? {
      var cs := ValidColumns(columns).value.value;
      forall c | c in cs ensures IsIdent(c) {
        ValidColumnsIdents(columns, c);
      }
      forall i | 0 <= i < |hit|
        ensures FallbackRecord(cs, hit[i], patch) == Project(Some(cs), Assign(hit[i], Keys(patch), Vals(patch)))
      {
        FallbackExact(cs, hit[i], patch, Keys(patch), Vals(patch));
      }
    }
  }
}
