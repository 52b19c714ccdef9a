/** The INSERT, UPDATE, SELECT and DELETE builders of orm/table.go. */
module Statements {
  import opened Strings
  import opened Sql
  import opened Where

  datatype Query = Query(toks: seq<Token>, args: seq<Value>)

  // A column list; None is `*`.
  type Columns = Option<seq<string>>

  datatype OrderBy = OrderBy(column: string, desc: bool)

  datatype FindOptions = FindOptions(columns: seq<string>, where: seq<Entry>, order: seq<OrderBy>, limit: int, offset: int)

  // ---------------------------------------------------------------- column and value lists

  // The first `*` wins, whatever comes after it; before it every column must be valid.
  function ValidColumns(cs: seq<string>): Result<Columns> {
    if cs == [] then Ok(Some([]))
    else if TrimSpace(cs[0]) == "*" then Ok(None)
    else
      var v :- ValidIdentifier(TrimSpace(cs[0]));
      var vs :- ValidColumns(cs[1..]);
      Ok(if vs.None? then None else Some([v] + vs.value))
  }

  function SelectColumns(cs: seq<string>): Result<Columns> {
    if cs == [] then Ok(None) else ValidColumns(cs)
  }

  // normalizedValues past its emptiness test.
  function ValidValues(values: seq<Entry>): Result<(seq<string>, seq<Value>)> {
    if values == [] then Ok(([], []))
    else
      var init :- ValidValues(values[..|values| - 1]);
      var last := values[|values| - 1];
      var col :- ValidIdentifier(last.key);
      Ok((init.0 + [col], init.1 + [last.val]))
  }

  function NormalizedValues(values: seq<Entry>): Result<(seq<string>, seq<Value>)> {
    if values == [] then Err(InvalidInput) else ValidValues(values)
  }

  function IdentList(cols: seq<string>): seq<Token> {
    if cols == [] then []
    else if |cols| == 1 then [Ident(cols[0])]
    else [Ident(cols[0]), Comma] + IdentList(cols[1..])
  }

  function ColumnTokens(cols: Columns): seq<Token> {
    if cols.None? then [Star] else IdentList(cols.value)
  }

  // c1 = Ph(1), c2 = Ph(2), ... for the first n columns.
  function SetTokens(cols: seq<string>, n: nat): seq<Token>
    requires n <= |cols|
  {
    if n == 0 then []
    else
      var part := [Ident(cols[n - 1]), Op(Eq), Ph(n)];
      if n == 1 then part else SetTokens(cols, n - 1) + [Comma] + part
  }

  function OrderTokens(order: seq<OrderBy>): Result<seq<Token>> {
    if order == [] then Ok([])
    else
      var init :- OrderTokens(order[..|order| - 1]);
      var last := order[|order| - 1];
      var col :- ValidIdentifier(last.column);
      var part := [Ident(col), Kw(if last.desc then DESC else ASC)];
      Ok(if init == [] then part else init + [Comma] + part)
  }

  function ReturningTokens(returning: Option<seq<string>>): Result<seq<Token>> {
    if returning.None? then Ok([])
    else
      var cols :- SelectColumns(returning.value);
      Ok([Kw(RETURNING)] + ColumnTokens(cols))
  }

  // ---------------------------------------------------------------- statements

  function WhereClauseOf(where: seq<Entry>, start: nat): Result<Query> {
    var f :- CompileWhere(where, start);
    Ok(if f.toks == [] then Query([], f.args) else Query([Kw(WHERE)] + f.toks, f.args))
  }

  function InsertOf(name: string, values: seq<Entry>, returning: Option<seq<string>>): Result<Query> {
    var table :- ValidIdentifier(name);
    var nv :- NormalizedValues(values);
    var ret :- ReturningTokens(returning);
    Ok(Query([Kw(INSERT), Kw(INTO), Ident(table), LP] + IdentList(nv.0) + [RP, Kw(VALUES), LP] +
             Holders(0, |nv.0|) + [RP] + ret, nv.1))
  }

  function UpdateOf(name: string, where: seq<Entry>, patch: seq<Entry>, returning: Option<seq<string>>): Result<Query> {
    var table :- ValidIdentifier(name);
    if where == [] then Err(InvalidInput)
    else
      var nv :- NormalizedValues(patch);
      var w :- WhereClauseOf(where, |nv.1|);
      var ret :- ReturningTokens(returning);
      Ok(Query([Kw(UPDATE), Ident(table), Kw(SET)] + SetTokens(nv.0, |nv.0|) + w.toks + ret, nv.1 + w.args))
  }

  function DeleteOf(name: string, where: seq<Entry>): Result<Query> {
    if where == [] then Err(InvalidInput)
    else
      var table :- ValidIdentifier(name);
      var w :- WhereClauseOf(where, 0);
      Ok(Query([Kw(DELETE), Kw(FROM), Ident(table)] + w.toks, w.args))
  }

  function Limited(q: Query, kw: Keyword, n: int): Query {
    if n > 0 then Query(q.toks + [Kw(kw), Ph(|q.args| + 1)], q.args + [Num(n)]) else q
  }

  function OrderClause(order: seq<OrderBy>): Result<seq<Token>> {
    var o :- OrderTokens(order);
    Ok(if order == [] then [] else [Kw(ORDER), Kw(BY)] + o)
  }

  function SelectOf(name: string, opts: FindOptions): Result<Query> {
    var table :- ValidIdentifier(name);
    var cols :- SelectColumns(opts.columns);
    var w :- WhereClauseOf(opts.where, 0);
    var order :- OrderClause(opts.order);
    var q := Query([Kw(SELECT)] + ColumnTokens(cols) + [Kw(FROM), Ident(table)] + w.toks + order, w.args);
    Ok(Limited(Limited(q, LIMIT, opts.limit), OFFSET, opts.offset))
  }

  // ---------------------------------------------------------------- the builders themselves

  function Prefixed(valid: seq<string>, r: Result<Columns>): Result<Columns> {
    if r.Ok? && r.value.Some? then Ok(Some(valid + r.value.value)) else r
  }

  lemma PrefixedNone(r: Result<Columns>)
    ensures Prefixed([], r) == r
  {
    if r.Ok? && r.value.Some? {
      assert [] + r.value.value == r.value.value;
    }
  }

  lemma PrefixedStep(valid: seq<string>, v: string, r: Result<Columns>)
    ensures Prefixed(valid + [v], r) == Prefixed(valid, Prefixed([v], r))
  {
    if r.Ok? && r.value.Some? {
      assert valid + [v] + r.value.value == valid + ([v] + r.value.value);
    }
  }

  method BuildSelectColumns(columns: seq<string>) returns (r: Result<Columns>)
    ensures r == SelectColumns(columns)
  {
    if columns == [] {
      return Ok(None);
    }
    var valid: seq<string> := [];
    PrefixedNone(ValidColumns(columns));
    assert columns[0..] == columns;
    for i := 0 to |columns|
      invariant ValidColumns(columns) == Prefixed(valid, ValidColumns(columns[i..]))
    {
      assert columns[i..][1..] == columns[i + 1..];
      var col := TrimSpace(columns[i]);
      if col == "*" {
        return Ok(None);
      }
      var v := ValidIdentifier(col);
      if v.Err? {
        return Err(v.error);
      }
      PrefixedStep(valid, v.value, ValidColumns(columns[i + 1..]));
      valid := valid + [v.value];
    }
    assert columns[|columns|..] == [] && valid + [] == valid;
    return Ok(Some(valid));
  }

  method BuildNormalizedValues(values: seq<Entry>) returns (r: Result<(seq<string>, seq<Value>)>)
    ensures r == NormalizedValues(values)
  {
    if values == [] {
      return Err(InvalidInput);
    }
    var cols: seq<string>, args: seq<Value> := [], [];
    for i := 0 to |values|
      invariant ValidValues(values[..i]) == Ok((cols, args))
    {
      assert values[..i + 1][..i] == values[..i];
      var col := ValidIdentifier(values[i].key);
      if col.Err? {
        ValidValuesError(values, i + 1);
        return Err(col.error);
      }
      cols, args := cols + [col.value], args + [values[i].val];
    }
    assert values[..|values|] == values;
    return Ok((cols, args));
  }

  lemma {:induction false} ValidValuesError(values: seq<Entry>, i: nat)
    requires i <= |values| && ValidValues(values[..i]).Err?
    ensures ValidValues(values) == Err(ValidValues(values[..i]).error)
  {
    if i == |values| {
      assert values[..i] == values;
    } else {
      assert values[..|values| - 1][..i] == values[..i];
      ValidValuesError(values[..|values| - 1], i);
    }
  }

  lemma {:induction false} ValidValuesLengths(values: seq<Entry>)
    requires ValidValues(values).Ok?
    ensures |ValidValues(values).value.0| == |ValidValues(values).value.1| == |values|
  {
    if values != [] {
      ValidValuesLengths(values[..|values| - 1]);
    }
  }

  method WhereClause(where: seq<Entry>, start: nat) returns (r: Result<Query>)
    ensures r == WhereClauseOf(where, start)
  {
    if where == [] {
      return Ok(Query([], []));
    }
    var f :- BuildWhereMap(where, start);
    if f.toks == [] {
      return Ok(Query([], f.args));
    }
    return Ok(Query([Kw(WHERE)] + f.toks, f.args));
  }

  method BuildReturning(returning: Option<seq<string>>) returns (r: Result<seq<Token>>)
    ensures r == ReturningTokens(returning)
  {
    if returning.None? {
      return Ok([]);
    }
    var cols :- BuildSelectColumns(returning.value);
    return Ok([Kw(RETURNING)] + ColumnTokens(cols));
  }

  method InsertQuery(name: string, values: seq<Entry>, returning: Option<seq<string>>) returns (r: Result<Query>)
    ensures r == InsertOf(name, values, returning)
  {
    var table :- ValidIdentifier(name);
    var nv :- BuildNormalizedValues(values);
    var holders: seq<Token> := [];
    for i := 0 to |nv.0|
      invariant holders == Holders(0, i)
    {
      holders := if holders == [] then [Ph(i + 1)] else holders + [Comma, Ph(i + 1)];
    }
    var toks := [Kw(INSERT), Kw(INTO), Ident(table), LP] + IdentList(nv.0) + [RP, Kw(VALUES), LP] + holders + [RP];
    var ret :- BuildReturning(returning);
    return Ok(Query(toks + ret, nv.1));
  }

  method UpdateQuery(name: string, where: seq<Entry>, patch: seq<Entry>, returning: Option<seq<string>>)
    returns (r: Result<Query>)
    ensures r == UpdateOf(name, where, patch, returning)
  {
    var table :- ValidIdentifier(name);
    if where == [] {
      return Err(InvalidInput);
    }
    var nv :- BuildNormalizedValues(patch);
    var w :- WhereClause(where, |nv.1|);
    var sets: seq<Token> := [];
    for i := 0 to |nv.0|
      invariant sets == SetTokens(nv.0, i)
    {
      var part := [Ident(nv.0[i]), Op(Eq), Ph(i + 1)];
      sets := if sets == [] then part else sets + [Comma] + part;
    }
    var ret :- BuildReturning(returning);
    return Ok(Query([Kw(UPDATE), Ident(table), Kw(SET)] + sets + w.toks + ret, nv.1 + w.args));
  }

  method DeleteQuery(name: string, where: seq<Entry>) returns (r: Result<Query>)
    ensures r == DeleteOf(name, where)
  {
    if where == [] {
      return Err(InvalidInput);
    }
    var table :- ValidIdentifier(name);
    var w :- WhereClause(where, 0);
    return Ok(Query([Kw(DELETE), Kw(FROM), Ident(table)] + w.toks, w.args));
  }

  method BuildOrder(order: seq<OrderBy>) returns (r: Result<seq<Token>>)
    ensures r == OrderClause(order)
  {
    if order == [] {
      return Ok([]);
    }
    var toks: seq<Token> := [];
    for i := 0 to |order|
      invariant OrderTokens(order[..i]) == Ok(toks)
    {
      assert order[..i + 1][..i] == order[..i];
      var col := ValidIdentifier(order[i].column);
      if col.Err? {
        OrderTokensError(order, i + 1);
        return Err(col.error);
      }
      var part := [Ident(col.value), Kw(if order[i].desc then DESC else ASC)];
      toks := if toks == [] then part else toks + [Comma] + part;
    }
    assert order[..|order|] == order;
    return Ok([Kw(ORDER), Kw(BY)] + toks);
  }

  lemma {:induction false} OrderTokensError(order: seq<OrderBy>, i: nat)
    requires i <= |order| && OrderTokens(order[..i]).Err?
    ensures OrderTokens(order) == Err(OrderTokens(order[..i]).error)
  {
    if i == |order| {
      assert order[..i] == order;
    } else {
      assert order[..|order| - 1][..i] == order[..i];
      OrderTokensError(order[..|order| - 1], i);
    }
  }

  method SelectQuery(name: string, opts: FindOptions) returns (r: Result<Query>)
    ensures r == SelectOf(name, opts)
  {
    var table :- ValidIdentifier(name);
    var cols :- BuildSelectColumns(opts.columns);
    var w :- WhereClause(opts.where, 0);
    var toks := [Kw(SELECT)] + ColumnTokens(cols) + [Kw(FROM), Ident(table)] + w.toks;
    var args := w.args;
    var order :- BuildOrder(opts.order);
    toks := toks + order;
    var next := |args| + 1;
    if opts.limit > 0 {
      toks := toks + [Kw(LIMIT), Ph(next)];
      args := args + [Num(opts.limit)];
      next := next + 1;
    }
    if opts.offset > 0 {
      toks := toks + [Kw(OFFSET), Ph(next)];
      args := args + [Num(opts.offset)];
    }
    return Ok(Query(toks, args));
  }

  // ---------------------------------------------------------------- what the lists mean

  // A column is asked for by name.
  predicate Named(name: string) {
    ValidIdentifier(name).Ok?
  }

  predicate IsStar(name: string) {
    TrimSpace(name) == "*"
  }

  lemma StarIsNoName(name: string)
    ensures IsStar(name) ==> !Named(name)
    ensures !IsStar(name) ==> ValidIdentifier(TrimSpace(name)) == ValidIdentifier(name)
  {
    TrimTwice(name);
    assert IsStar(name) ==> TrimSpace(name)[0] == '*';
  }

  lemma {:induction false} TrimTwice(s: string)
    ensures TrimSpace(TrimSpace(s)) == TrimSpace(s)
  {
    TrimLeftDone(s);
    TrimRightDone(TrimLeft(s));
  }

  lemma {:induction false} TrimLeftDone(s: string)
    ensures TrimLeft(s) == [] || !IsSpace(TrimLeft(s)[0])
  {
    if s != [] && IsSpace(s[0]) {
      TrimLeftDone(s[1..]);
    }
  }

  lemma {:induction false} TrimRightDone(s: string)
    ensures TrimRight(s) == [] || (!IsSpace(TrimRight(s)[|TrimRight(s)| - 1]) && TrimRight(s)[0] == s[0])
    ensures TrimRight(s) <= s
  {
    if s != [] && IsSpace(s[|s| - 1]) {
      TrimRightDone(s[..|s| - 1]);
    }
  }

  // The first k columns are names.
  predicate NamedTo(cs: seq<string>, k: nat)
    requires k <= |cs|
  {
    forall i :: 0 <= i < k ==> Named(cs[i])
  }

  // Column k ends the list of names.
  predicate StopsAt(cs: seq<string>, k: nat) {
    k < |cs| && NamedTo(cs, k) && !Named(cs[k])
  }

  lemma StopsLater(cs: seq<string>, k: nat)
    requires cs != [] && Named(cs[0])
    ensures StopsAt(cs, k + 1) <==> StopsAt(cs[1..], k)
  {
    if k < |cs| - 1 {
      assert NamedTo(cs, k + 1) ==> NamedTo(cs[1..], k) by {
        assert forall i :: 0 <= i < k ==> cs[1..][i] == cs[i + 1];
      }
      assert NamedTo(cs[1..], k) ==> NamedTo(cs, k + 1) by {
        assert forall i :: 1 <= i < k + 1 ==> cs[i] == cs[1..][i - 1];
      }
    }
  }

  lemma StopsOnce(cs: seq<string>, j: nat, k: nat)
    requires StopsAt(cs, j) && k <= |cs| && NamedTo(cs, k) && (k < |cs| ==> StopsAt(cs, k))
    ensures j == k
  {
  }

  lemma {:induction false} StopOf(cs: seq<string>) returns (k: nat)
    ensures if NamedTo(cs, |cs|) then k == |cs| else StopsAt(cs, k)
    ensures ValidColumns(cs) ==
            if k == |cs| then Ok(Some(NamesOf(cs)))
            else if IsStar(cs[k]) then Ok(None)
            else Err(InvalidInput)
  {
    k := 0;
    if cs != [] {
      StarIsNoName(cs[0]);
      if Named(cs[0]) {
        var rest := StopOf(cs[1..]);
        k := rest + 1;
        StopsLater(cs, rest);
        assert NamedTo(cs[1..], |cs| - 1) ==> NamedTo(cs, |cs|) by {
          assert forall i :: 1 <= i < |cs| ==> cs[i] == cs[1..][i - 1];
        }
        assert NamesOf(cs) == [ValidIdentifier(cs[0]).value] + NamesOf(cs[1..]);
      }
    }
  }

  function NamesOf(cs: seq<string>): seq<string> {
    seq(|cs|, i requires 0 <= i < |cs| => if Named(cs[i]) then ValidIdentifier(cs[i]).value else "")
  }

  /** A column list is all columns when it is empty or when the first entry that is no name is a star; it is
      refused when that entry is anything else; without one it is the names, in order. */
  lemma ColumnsMean(cs: seq<string>)
    ensures SelectColumns(cs) == Ok(None) <==> cs == [] || exists k: nat :: StopsAt(cs, k) && IsStar(cs[k])
    ensures SelectColumns(cs).Err? <==> exists k: nat :: StopsAt(cs, k) && !IsStar(cs[k])
    ensures SelectColumns(cs).Err? ==> SelectColumns(cs) == Err(InvalidInput)
    ensures forall vs :: SelectColumns(cs) == Ok(Some(vs)) <==>
              cs != [] && |vs| == |cs| && forall i :: 0 <= i < |cs| ==> ValidIdentifier(cs[i]) == Ok(vs[i])
  {
    if cs != [] {
      var k := StopOf(cs);
      forall j: nat | StopsAt(cs, j) ensures j == k {
        StopsOnce(cs, j, k);
      }
      forall vs ensures SelectColumns(cs) == Ok(Some(vs)) <==> |vs| == |cs| && forall i :: 0 <= i < |cs| ==> ValidIdentifier(cs[i]) == Ok(vs[i]) {
        NamesAre(cs, vs);
        assert k < |cs| ==> !Named(cs[k]);
      }
    }
  }

  lemma NamesAre(cs: seq<string>, vs: seq<string>)
    ensures NamedTo(cs, |cs|) && vs == NamesOf(cs) <==> |vs| == |cs| && forall i :: 0 <= i < |cs| ==> ValidIdentifier(cs[i]) == Ok(vs[i])
  {
    if |vs| == |cs| && forall i :: 0 <= i < |cs| ==> ValidIdentifier(cs[i]) == Ok(vs[i]) {
      forall i | 0 <= i < |cs| ensures vs[i] == NamesOf(cs)[i] {
      }
    }
    if NamedTo(cs, |cs|) && vs == NamesOf(cs) {
      forall i | 0 <= i < |cs| ensures ValidIdentifier(cs[i]) == Ok(vs[i]) {
        assert Named(cs[i]);
      }
    }
  }

  predicate Lists(values: seq<Entry>, cols: seq<string>, vals: seq<Value>) {
    && |cols| == |vals| == |values|
    && forall i :: 0 <= i < |values| ==> ValidIdentifier(values[i].key) == Ok(cols[i]) && vals[i] == values[i].val
  }

  lemma ListsLast(values: seq<Entry>, cols: seq<string>, vals: seq<Value>)
    requires values != [] && |cols| == |vals| == |values|
    ensures var n := |values| - 1;
            Lists(values, cols, vals) <==>
            Lists(values[..n], cols[..n], vals[..n]) && ValidIdentifier(values[n].key) == Ok(cols[n]) && vals[n] == values[n].val
  {
    var n := |values| - 1;
    if Lists(values[..n], cols[..n], vals[..n]) {
      forall i | 0 <= i < n ensures ValidIdentifier(values[i].key) == Ok(cols[i]) && vals[i] == values[i].val {
        assert values[..n][i] == values[i] && cols[..n][i] == cols[i] && vals[..n][i] == vals[i];
      }
    }
  }

  lemma {:induction false} ValidIsListed(values: seq<Entry>)
    requires ValidValues(values).Ok?
    ensures Lists(values, ValidValues(values).value.0, ValidValues(values).value.1)
  {
    if values != [] {
      var n := |values| - 1;
      ValidIsListed(values[..n]);
      ValidValuesLengths(values[..n]);
      var (cols, vals) := ValidValues(values).value;
      assert cols[..n] == ValidValues(values[..n]).value.0 && vals[..n] == ValidValues(values[..n]).value.1;
      ListsLast(values, cols, vals);
    }
  }

  lemma {:induction false} ListedIsValid(values: seq<Entry>, cols: seq<string>, vals: seq<Value>)
    requires Lists(values, cols, vals)
    ensures ValidValues(values) == Ok((cols, vals))
  {
    if values != [] {
      var n := |values| - 1;
      ListsLast(values, cols, vals);
      ListedIsValid(values[..n], cols[..n], vals[..n]);
      assert cols == cols[..n] + [cols[n]] && vals == vals[..n] + [vals[n]];
    }
  }

  /** A value list is accepted exactly when there is one and all its keys are names, and then it is these
      names with their values, in order. */
  lemma ValuesMean(values: seq<Entry>, cols: seq<string>, vals: seq<Value>)
    ensures NormalizedValues(values) == Ok((cols, vals)) <==>
            && values != [] && |cols| == |vals| == |values|
            && forall i :: 0 <= i < |values| ==> ValidIdentifier(values[i].key) == Ok(cols[i]) && vals[i] == values[i].val
  {
    if ValidValues(values) == Ok((cols, vals)) {
      ValidIsListed(values);
    }
    if Lists(values, cols, vals) {
      ListedIsValid(values, cols, vals);
    }
  }
}
