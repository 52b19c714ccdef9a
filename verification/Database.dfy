/** One SQL table and the effect of a statement on it: filtered, patched or extended rows,
    each statement atomic. */
module Database {
  import opened Strings
  import opened Sql
  import opened WhereMeaning
  import opened Statements
  import opened StatementParse
  import opened SqlText
  import opened StatementText

  // ---------------------------------------------------------------- rows

  // The filter tree holds of the row; a tree without any condition holds of every row.
  predicate Matches(eng: Engine, where: seq<Entry>, row: Row) {
    var m := Meaning(eng, where, row);
    m.None? || m.value == True
  }

  predicate Selected(eng: Engine, cond: Option<seq<Conj>>, row: Row) {
    cond.None? || EvalAny(eng, cond.value, row) == True
  }

  lemma SelectedIffMatches(eng: Engine, where: seq<Entry>, row: Row)
    requires WellFormed(where)
    ensures Selected(eng, CondOf(where), row) <==> Matches(eng, where, row)
  {
    ChainMeans(eng, where, row);
    EvalGroup(eng, Chain(where), row);
  }

  function Assign(row: Row, cols: seq<string>, vals: seq<Value>): Row
    requires |cols| == |vals|
  {
    if cols == [] then row
    else Assign(row, cols[..|cols| - 1], vals[..|vals| - 1])[cols[|cols| - 1] := vals[|vals| - 1]]
  }

  predicate Distinct(cols: seq<string>) {
    forall i, j :: 0 <= i < j < |cols| ==> cols[i] != cols[j]
  }

  function Project(cols: Columns, row: Row): Row {
    if cols.None? then row else map c | c in cols.value :: ColumnOf(row, c)
  }

  function ProjectAll(cols: Columns, rows: seq<Row>): seq<Row> {
    seq(|rows|, i requires 0 <= i < |rows| => Project(cols, rows[i]))
  }

  function Filter(p: Row -> bool, rows: seq<Row>): seq<Row> {
    if rows == [] then []
    else Filter(p, rows[..|rows| - 1]) + if p(rows[|rows| - 1]) then [rows[|rows| - 1]] else []
  }

  // Every selected row patched in place.
  function PatchRows(p: Row -> bool, cols: seq<string>, vals: seq<Value>, rows: seq<Row>): seq<Row>
    requires |cols| == |vals|
  {
    seq(|rows|, i requires 0 <= i < |rows| => if p(rows[i]) then Assign(rows[i], cols, vals) else rows[i])
  }

  // The selected rows after the patch, in table order.
  function PatchedOnly(p: Row -> bool, cols: seq<string>, vals: seq<Value>, rows: seq<Row>): seq<Row>
    requires |cols| == |vals|
  {
    var hit := Filter(p, rows);
    seq(|hit|, i requires 0 <= i < |hit| => Assign(hit[i], cols, vals))
  }

  // The row must come first: by the first key the engine tells the two apart by. How the engine
  // compares NULLs here decides where it places them.
  predicate Before(eng: Engine, order: seq<OrderBy>, a: Row, b: Row) {
    if order == [] then false
    else
      var x, y := ColumnOf(a, order[0].column), ColumnOf(b, order[0].column);
      if eng(Lt, x, y) != eng(Lt, y, x) then eng(Lt, x, y) != order[0].desc
      else Before(eng, order[1..], a, b)
  }

  function InsertRow(eng: Engine, order: seq<OrderBy>, row: Row, rows: seq<Row>): seq<Row> {
    if rows == [] || !Before(eng, order, row, rows[|rows| - 1]) then rows + [row]
    else InsertRow(eng, order, row, rows[..|rows| - 1]) + [rows[|rows| - 1]]
  }

  // ORDER BY, keeping the table's order among rows that no key tells apart.
  function Arrange(eng: Engine, order: seq<OrderBy>, rows: seq<Row>): seq<Row> {
    if rows == [] then []
    else InsertRow(eng, order, rows[|rows| - 1], Arrange(eng, order, rows[..|rows| - 1]))
  }

  function Take(limit: Option<Value>, rows: seq<Row>): seq<Row> {
    if limit.Some? && limit.value.Num? && 0 <= limit.value.n < |rows| then rows[..limit.value.n] else rows
  }

  function Drop(offset: Option<Value>, rows: seq<Row>): seq<Row> {
    if offset.Some? && offset.value.Num? && 0 <= offset.value.n then
      if offset.value.n < |rows| then rows[offset.value.n..] else []
    else rows
  }

  // ---------------------------------------------------------------- statements

  datatype Outcome = Outcome(rows: seq<Row>, records: seq<Row>, affected: nat)

  function Run(eng: Engine, table: string, rows: seq<Row>, stmt: Stmt): Result<Outcome>
  {
    if stmt.table != table then Err(DatabaseFailure)
    else match stmt
      case InsertStmt(_, cols, vals, ret) =>
        if !Distinct(cols) || |cols| != |vals| then Err(DatabaseFailure)
        else
          var row := Assign(map[], cols, vals);
          Ok(Outcome(rows + [row], if ret.Some? then [Project(ret.value, row)] else [], 1))
      case UpdateStmt(_, cols, vals, cond, ret) =>
        if !Distinct(cols) || |cols| != |vals| then Err(DatabaseFailure)
        else
          var p := (row: Row) => Selected(eng, cond, row);
          var done := PatchedOnly(p, cols, vals, rows);
          Ok(Outcome(PatchRows(p, cols, vals, rows), if ret.Some? then ProjectAll(ret.value, done) else [], |done|))
      case DeleteStmt(_, cond) =>
        var p := (row: Row) => Selected(eng, cond, row);
        var kept := Filter(row => !p(row), rows);
        Ok(Outcome(kept, [], |Filter(p, rows)|))
      case SelectStmt(sel, _, cond, order, limit, offset) =>
        var hit := Arrange(eng, order, Filter((row: Row) => Selected(eng, cond, row), rows));
        Ok(Outcome(rows, ProjectAll(sel, Take(limit, Drop(offset, hit))), 0))
  }

  class Server {
    const eng: Engine
    const table: string
    const reserved: set<string>
    var rows: seq<Row>

    constructor (eng: Engine, table: string, reserved: set<string>, rows: seq<Row>)
      ensures this.eng == eng && this.table == table && this.reserved == reserved && this.rows == rows
    {
      this.eng, this.table, this.reserved, this.rows := eng, table, reserved, rows;
    }

    // A statement takes effect as a whole or not at all; when it did, its answer may still be lost.  A
    // text in which a table or column is a reserved word is refused.
    method Execute(d: Dialect, q: Query) returns (r: Result<Outcome>, ghost lost: bool)
      modifies this
      ensures lost ==> r.Err?
      ensures r.Err? ==> r.error == DatabaseFailure
      ensures r.Err? && !lost ==> rows == old(rows)
      ensures r.Ok? || lost ==>
                && Received(d, q).Some?
                && Run(eng, table, old(rows), Received(d, q).value).Ok?
                && rows == Run(eng, table, old(rows), Received(d, q).value).value.rows
      ensures r.Ok? ==> r == Run(eng, table, old(rows), Received(d, q).value)
      ensures r.Ok? ==> Lex(reserved, TextOf(d, q)) == Some(Emit(d, q.toks))
    {
      if * {
        return Err(DatabaseFailure), false;
      }
      var toks := Lex(reserved, TextOf(d, q));
      if toks != Some(Emit(d, q.toks)) {
        return Err(DatabaseFailure), false;
      }
      var stmt := ParseStmt(Bind(toks.value, q.args, 0));
      if stmt.None? {
        return Err(DatabaseFailure), false;
      }
      r := Run(eng, table, rows, stmt.value);
      lost := false;
      if r.Ok? {
        rows := r.value.rows;
        if * {
          return Err(DatabaseFailure), true;
        }
      }
    }
  }

  // ---------------------------------------------------------------- facts about rows

  lemma {:induction false} FilterEqual(p: Row -> bool, q: Row -> bool, rows: seq<Row>)
    requires forall row :: row in rows ==> p(row) == q(row)
    ensures Filter(p, rows) == Filter(q, rows)
  {
    if rows != [] {
      FilterEqual(p, q, rows[..|rows| - 1]);
    }
  }

  lemma {:induction false} FilterAppend(p: Row -> bool, rows: seq<Row>, row: Row)
    ensures Filter(p, rows + [row]) == Filter(p, rows) + if p(row) then [row] else []
  {
    assert (rows + [row])[..|rows|] == rows;
  }

  lemma {:induction false} AssignLookup(row: Row, cols: seq<string>, vals: seq<Value>, i: nat)
    requires |cols| == |vals| && Distinct(cols) && i < |cols|
    ensures cols[i] in Assign(row, cols, vals) && Assign(row, cols, vals)[cols[i]] == vals[i]
  {
    if i < |cols| - 1 {
      AssignLookup(row, cols[..|cols| - 1], vals[..|vals| - 1], i);
    }
  }

  lemma {:induction false} AssignOther(row: Row, cols: seq<string>, vals: seq<Value>, c: string)
    requires |cols| == |vals| && c !in cols
    ensures ColumnOf(Assign(row, cols, vals), c) == ColumnOf(row, c)
  {
    if cols != [] {
      AssignOther(row, cols[..|cols| - 1], vals[..|vals| - 1], c);
    }
  }

  // If patching keeps the selection of every row, filtering and patching commute.
  lemma {:induction false} FilterPatched(p: Row -> bool, cols: seq<string>, vals: seq<Value>, rows: seq<Row>)
    requires |cols| == |vals|
    requires forall row :: row in rows && p(row) ==> p(Assign(row, cols, vals))
    ensures Filter(p, PatchRows(p, cols, vals, rows)) == PatchedOnly(p, cols, vals, rows)
  {
    if rows != [] {
      var init, last := rows[..|rows| - 1], rows[|rows| - 1];
      FilterPatched(p, cols, vals, init);
      var patched := if p(last) then Assign(last, cols, vals) else last;
      assert last in rows;
      assert PatchRows(p, cols, vals, rows) == PatchRows(p, cols, vals, init) + [patched];
      FilterAppend(p, PatchRows(p, cols, vals, init), patched);
      assert Filter(p, rows) == Filter(p, init) + if p(last) then [last] else [];
    }
  }

  // ---------------------------------------------------------------- facts about ORDER BY

  lemma {:induction false} UnorderedStays(eng: Engine, rows: seq<Row>)
    ensures Arrange(eng, [], rows) == rows
  {
    if rows != [] {
      UnorderedStays(eng, rows[..|rows| - 1]);
    }
  }

  lemma {:induction false} InsertRowKeeps(eng: Engine, order: seq<OrderBy>, row: Row, rows: seq<Row>)
    ensures multiset(InsertRow(eng, order, row, rows)) == multiset(rows) + multiset{row}
  {
    if rows != [] && Before(eng, order, row, rows[|rows| - 1]) {
      InsertRowKeeps(eng, order, row, rows[..|rows| - 1]);
      assert rows == rows[..|rows| - 1] + [rows[|rows| - 1]];
    }
  }

  // The engine orders rows consistently: what may not precede stays so along a chain.
  ghost predicate OrdersRows(eng: Engine, order: seq<OrderBy>) {
    && (forall a, b :: Before(eng, order, a, b) ==> !Before(eng, order, b, a))
    && (forall a, b, c :: !Before(eng, order, b, a) && !Before(eng, order, c, b) ==> !Before(eng, order, c, a))
  }

  ghost predicate Arranged(eng: Engine, order: seq<OrderBy>, rows: seq<Row>) {
    forall i, j :: 0 <= i < j < |rows| ==> !Before(eng, order, rows[j], rows[i])
  }

  lemma {:induction false} InsertRowSorts(eng: Engine, order: seq<OrderBy>, row: Row, rows: seq<Row>)
    requires OrdersRows(eng, order) && Arranged(eng, order, rows)
    ensures var out := InsertRow(eng, order, row, rows);
            && Arranged(eng, order, out)
            && out != [] && (out[|out| - 1] == row || (rows != [] && out[|out| - 1] == rows[|rows| - 1]))
  {
    if rows != [] {
      var init, last := rows[..|rows| - 1], rows[|rows| - 1];
      if Before(eng, order, row, last) {
        InsertRowSorts(eng, order, row, init);
        var front := InsertRow(eng, order, row, init);
        assert !Before(eng, order, last, front[|front| - 1]);
        forall i | 0 <= i < |front| ensures !Before(eng, order, last, front[i]) {
        }
      } else {
        forall i | 0 <= i < |rows| ensures !Before(eng, order, row, rows[i]) {
        }
      }
    }
  }

  lemma {:induction false} ArrangeKeeps(eng: Engine, order: seq<OrderBy>, rows: seq<Row>)
    ensures multiset(Arrange(eng, order, rows)) == multiset(rows)
  {
    if rows != [] {
      var init, last := rows[..|rows| - 1], rows[|rows| - 1];
      ArrangeKeeps(eng, order, init);
      InsertRowKeeps(eng, order, last, Arrange(eng, order, init));
      assert rows == init + [last];
    }
  }

  lemma {:induction false} ArrangeSorts(eng: Engine, order: seq<OrderBy>, rows: seq<Row>)
    requires OrdersRows(eng, order)
    ensures Arranged(eng, order, Arrange(eng, order, rows))
  {
    if rows != [] {
      ArrangeSorts(eng, order, rows[..|rows| - 1]);
      InsertRowSorts(eng, order, rows[|rows| - 1], Arrange(eng, order, rows[..|rows| - 1]));
    }
  }

  /** ORDER BY rearranges the rows, and puts them in order if the engine's comparison is one. */
  lemma {:induction false} ArrangeMeans(eng: Engine, order: seq<OrderBy>, rows: seq<Row>)
    ensures multiset(Arrange(eng, order, rows)) == multiset(rows)
    ensures OrdersRows(eng, order) ==> Arranged(eng, order, Arrange(eng, order, rows))
  {
    ArrangeKeeps(eng, order, rows);
    if OrdersRows(eng, order) {
      ArrangeSorts(eng, order, rows);
    }
  }
}
