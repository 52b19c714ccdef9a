/** A reader for the four statements and the proof that every built statement, in either
    placeholder dialect, reads back as the statement that was asked for. */
module StatementParse {
  import opened Strings
  import opened Sql
  import opened Where
  import opened WhereMeaning
  import opened WhereParse
  import opened Statements

  datatype Stmt =
    | InsertStmt(table: string, cols: seq<string>, vals: seq<Value>, ret: Option<Columns>)
    | UpdateStmt(table: string, cols: seq<string>, vals: seq<Value>, cond: Option<seq<Conj>>, ret: Option<Columns>)
    | DeleteStmt(table: string, cond: Option<seq<Conj>>)
    | SelectStmt(sel: Columns, table: string, cond: Option<seq<Conj>>, order: seq<OrderBy>,
                 limit: Option<Value>, offset: Option<Value>)

  // ---------------------------------------------------------------- the reader

  function ParseIdents(ts: seq<Token>): Option<(seq<string>, seq<Token>)>
    decreases |ts|
  {
    if ts == [] || !ts[0].Ident? then None
    else if !Starts(ts[1..], Comma) then Some(([ts[0].name], ts[1..]))
    else match ParseIdents(ts[2..])
      case None => None
      case Some((cs, rest)) => Some(([ts[0].name] + cs, rest))
  }

  function ParseColumns(ts: seq<Token>): Option<(Columns, seq<Token>)> {
    if Starts(ts, Star) then Some((None, ts[1..]))
    else match ParseIdents(ts)
      case None => None
      case Some((cs, rest)) => Some((Some(cs), rest))
  }

  function ParseSets(ts: seq<Token>): Option<(seq<string>, seq<Value>, seq<Token>)>
    decreases |ts|
  {
    if |ts| < 3 || !ts[0].Ident? || ts[1] != Op(Eq) || !ts[2].Lit? then None
    else if !Starts(ts[3..], Comma) then Some(([ts[0].name], [ts[2].v], ts[3..]))
    else match ParseSets(ts[4..])
      case None => None
      case Some((cs, vs, rest)) => Some(([ts[0].name] + cs, [ts[2].v] + vs, rest))
  }

  function ParseOrders(ts: seq<Token>): Option<(seq<OrderBy>, seq<Token>)>
    decreases |ts|
  {
    if |ts| < 2 || !ts[0].Ident? || (ts[1] != Kw(ASC) && ts[1] != Kw(DESC)) then None
    else
      var o := OrderBy(ts[0].name, ts[1] == Kw(DESC));
      if !Starts(ts[2..], Comma) then Some(([o], ts[2..]))
      else match ParseOrders(ts[3..])
        case None => None
        case Some((os, rest)) => Some(([o] + os, rest))
  }

  function ParseWhere(ts: seq<Token>): Option<(Option<seq<Conj>>, seq<Token>)> {
    if !Starts(ts, Kw(WHERE)) then Some((None, ts))
    else match ParseOr(ts[1..])
      case None => None
      case Some((alts, rest)) => Some((Some(alts), rest))
  }

  // RETURNING ends a statement.
  function ParseReturning(ts: seq<Token>): Option<Option<Columns>> {
    if ts == [] then Some(None)
    else if !Starts(ts, Kw(RETURNING)) then None
    else match ParseColumns(ts[1..])
      case None => None
      case Some((cols, rest)) => if rest == [] then Some(Some(cols)) else None
  }

  function ParseOrderBy(ts: seq<Token>): Option<(seq<OrderBy>, seq<Token>)> {
    if !Starts(ts, Kw(ORDER)) then Some(([], ts))
    else if !Starts(ts[1..], Kw(BY)) then None
    else ParseOrders(ts[2..])
  }

  function ParseLimit(kw: Keyword, ts: seq<Token>): (Option<Value>, seq<Token>) {
    if Starts(ts, Kw(kw)) && |ts| > 1 && ts[1].Lit? then (Some(ts[1].v), ts[2..]) else (None, ts)
  }

  function ParseInsertTail(table: string, cols: seq<string>, ts: seq<Token>): Option<Stmt> {
    if |ts| < 3 || ts[..3] != [RP, Kw(VALUES), LP] then None
    else match ParseValues(ts[3..])
      case None => None
      case Some((vals, rest)) =>
        if !Starts(rest, RP) then None
        else match ParseReturning(rest[1..])
          case None => None
          case Some(ret) => Some(InsertStmt(table, cols, vals, ret))
  }

  function ParseUpdateTail(table: string, cols: seq<string>, vals: seq<Value>, ts: seq<Token>): Option<Stmt> {
    match ParseWhere(ts)
    case None => None
    case Some((cond, rest)) =>
      match ParseReturning(rest)
      case None => None
      case Some(ret) => Some(UpdateStmt(table, cols, vals, cond, ret))
  }

  function ParseSelectTail(sel: Columns, ts: seq<Token>): Option<Stmt> {
    if |ts| < 2 || ts[0] != Kw(FROM) || !ts[1].Ident? then None
    else match ParseWhere(ts[2..])
      case None => None
      case Some((cond, rest)) =>
        match ParseOrderBy(rest)
        case None => None
        case Some((order, rest1)) =>
          var (limit, rest2) := ParseLimit(LIMIT, rest1);
          var (offset, rest3) := ParseLimit(OFFSET, rest2);
          if rest3 != [] then None else Some(SelectStmt(sel, ts[1].name, cond, order, limit, offset))
  }

  function ParseInsert(ts: seq<Token>): Option<Stmt> {
    if |ts| < 4 || ts[1] != Kw(INTO) || !ts[2].Ident? || ts[3] != LP then None
    else match ParseIdents(ts[4..])
      case None => None
      case Some((cols, rest)) => ParseInsertTail(ts[2].name, cols, rest)
  }

  function ParseUpdate(ts: seq<Token>): Option<Stmt> {
    if |ts| < 3 || !ts[1].Ident? || ts[2] != Kw(SET) then None
    else match ParseSets(ts[3..])
      case None => None
      case Some((cols, vals, rest)) => ParseUpdateTail(ts[1].name, cols, vals, rest)
  }

  function ParseDelete(ts: seq<Token>): Option<Stmt> {
    if |ts| < 3 || ts[1] != Kw(FROM) || !ts[2].Ident? then None
    else match ParseWhere(ts[3..])
      case None => None
      case Some((cond, rest)) => if rest == [] then Some(DeleteStmt(ts[2].name, cond)) else None
  }

  function ParseSelect(ts: seq<Token>): Option<Stmt>
    requires ts != []
  {
    match ParseColumns(ts[1..])
    case None => None
    case Some((sel, rest)) => ParseSelectTail(sel, rest)
  }

  function ParseStmt(ts: seq<Token>): Option<Stmt> {
    if ts == [] then None
    else if ts[0] == Kw(INSERT) then ParseInsert(ts)
    else if ts[0] == Kw(UPDATE) then ParseUpdate(ts)
    else if ts[0] == Kw(DELETE) then ParseDelete(ts)
    else if ts[0] == Kw(SELECT) then ParseSelect(ts)
    else None
  }

  // ---------------------------------------------------------------- placeholders of a whole statement

  /** The k-th placeholder from the left is number k, and there are as many as arguments. */
  predicate Numbered(q: Query) {
    PhNums(q.toks) == UpTo(0, |q.args|) && NoMarks(q.toks)
  }

  // A stretch of text without placeholders.
  predicate Plain(ts: seq<Token>) {
    forall i :: 0 <= i < |ts| ==> !ts[i].Ph? && !ts[i].Mark?
  }

  lemma PlainText(ts: seq<Token>, all: seq<Value>)
    requires Plain(ts)
    ensures PhNums(ts) == [] && NoMarks(ts) && Resolve(ts, all) == ts
  {
    NoPlaceholders(ts);
  }

  lemma {:induction false} IdentListPlain(cols: seq<string>)
    ensures Plain(IdentList(cols))
  {
    if |cols| > 1 {
      IdentListPlain(cols[1..]);
    }
  }

  lemma ColumnTokensPlain(cols: Columns)
    ensures Plain(ColumnTokens(cols))
  {
    if cols.Some? {
      IdentListPlain(cols.value);
    }
  }

  lemma ReturningPlain(returning: Option<seq<string>>)
    requires ReturningTokens(returning).Ok?
    ensures Plain(ReturningTokens(returning).value)
  {
    if returning.Some? {
      ColumnTokensPlain(SelectColumns(returning.value).value);
    }
  }

  lemma {:induction false} OrderTokensPlain(order: seq<OrderBy>)
    requires OrderTokens(order).Ok?
    ensures Plain(OrderTokens(order).value)
  {
    if order != [] {
      OrderTokensPlain(order[..|order| - 1]);
    }
  }

  lemma {:induction false} SetTokensNumbered(cols: seq<string>, n: nat)
    requires n <= |cols|
    ensures PhNums(SetTokens(cols, n)) == UpTo(0, n) && NoMarks(SetTokens(cols, n))
  {
    if n > 0 {
      LeafNumbered(cols[n - 1], Eq, Null, n - 1);
      var part := CompareFrag(cols[n - 1], Eq, Null, n - 1).toks;
      if n > 1 {
        SetTokensNumbered(cols, n - 1);
        var s := SetTokens(cols, n - 1);
        PlainText([Comma], []);
        PhNumsConcat(s + [Comma], part);
        PhNumsConcat(s, [Comma]);
        UpToConcat(0, n - 1, 1);
      }
    }
  }

  // Numbered text between two stretches without placeholders.
  lemma Framed(a: seq<Token>, h: seq<Token>, c: seq<Token>, n: nat, all: seq<Value>)
    requires Plain(a) && Plain(c) && PhNums(h) == UpTo(0, n) && NoMarks(h)
    ensures PhNums(a + h + c) == UpTo(0, n) && NoMarks(a + h + c)
    ensures Resolve(a + h + c, all) == a + Resolve(h, all) + c
  {
    PlainText(a, all);
    PlainText(c, all);
    PhNumsConcat(a + h, c);
    PhNumsConcat(a, h);
    ResolveJoin(a, h, c, all);
  }

  lemma WhereClauseNumbered(where: seq<Entry>, start: nat)
    requires WhereClauseOf(where, start).Ok?
    ensures var w := WhereClauseOf(where, start).value;
            PhNums(w.toks) == UpTo(start, |w.args|) && NoMarks(w.toks)
  {
    WhereNumbered(where, start);
    var f := CompileWhere(where, start).value;
    PlainText([Kw(WHERE)], []);
    PhNumsConcat([Kw(WHERE)], f.toks);
  }

  // ---------------------------------------------------------------- reading the pieces back

  lemma {:induction false} IdentsRead(cols: seq<string>, rest: seq<Token>)
    requires cols != [] && !Starts(rest, Comma)
    ensures ParseIdents(IdentList(cols) + rest) == Some((cols, rest))
  {
    var ts := IdentList(cols) + rest;
    if |cols| == 1 {
      assert ts[1..] == rest && cols == [cols[0]];
    } else {
      assert Starts(ts[1..], Comma);
      assert ts[2..] == IdentList(cols[1..]) + rest;
      IdentsRead(cols[1..], rest);
      assert [cols[0]] + cols[1..] == cols;
    }
  }

  lemma {:induction false} ValidColumnsNonEmpty(cs: seq<string>)
    requires ValidColumns(cs).Ok? && ValidColumns(cs).value.Some?
    ensures |ValidColumns(cs).value.value| == |cs|
  {
    if cs != [] {
      ValidColumnsNonEmpty(cs[1..]);
    }
  }

  lemma ColumnsRead(cs: seq<string>, rest: seq<Token>)
    requires SelectColumns(cs).Ok? && !Starts(rest, Comma)
    ensures ParseColumns(ColumnTokens(SelectColumns(cs).value) + rest) == Some((SelectColumns(cs).value, rest))
  {
    var cols := SelectColumns(cs).value;
    if cols.None? {
      assert ([Star] + rest)[1..] == rest;
    } else {
      ValidColumnsNonEmpty(cs);
      IdentsRead(cols.value, rest);
      assert (IdentList(cols.value) + rest)[0] == Ident(cols.value[0]);
    }
  }

  // The RETURNING list a builder was asked for.
  function ReturningOf(returning: Option<seq<string>>): Option<Columns> {
    if returning.None? then None
    else match SelectColumns(returning.value)
      case Ok(cols) => Some(cols)
      case Err(_) => None
  }

  lemma ReturningRead(returning: Option<seq<string>>)
    requires ReturningTokens(returning).Ok?
    ensures ParseReturning(ReturningTokens(returning).value) == Some(ReturningOf(returning))
    ensures var ts := ReturningTokens(returning).value; ts == [] || ts[0] == Kw(RETURNING)
  {
    if returning.Some? {
      ColumnsRead(returning.value, []);
      var ts := ReturningTokens(returning).value;
      var cols := ColumnTokens(SelectColumns(returning.value).value);
      assert ts[1..] == cols && cols + [] == cols;
    }
  }

  // What follows assignments that have read `cs` and `vs` so far.
  function MoreSets(cs: seq<string>, vs: seq<Value>, tail: seq<Token>): Option<(seq<string>, seq<Value>, seq<Token>)> {
    if !Starts(tail, Comma) then Some((cs, vs, tail))
    else match ParseSets(tail[1..])
      case None => None
      case Some((ds, ws, rest)) => Some((cs + ds, vs + ws, rest))
  }

  lemma OneSet(c: string, v: Value, tail: seq<Token>)
    ensures ParseSets([Ident(c), Op(Eq), Lit(v)] + tail) == MoreSets([c], [v], tail)
  {
    var ts := [Ident(c), Op(Eq), Lit(v)] + tail;
    assert ts[3..] == tail;
    if Starts(tail, Comma) {
      assert ts[4..] == tail[1..];
    }
  }

  lemma NextSet(cs: seq<string>, vs: seq<Value>, c: string, v: Value, tail: seq<Token>)
    ensures MoreSets(cs, vs, [Comma] + ([Ident(c), Op(Eq), Lit(v)] + tail)) == MoreSets(cs + [c], vs + [v], tail)
  {
    var ts := [Ident(c), Op(Eq), Lit(v)] + tail;
    assert ([Comma] + ts)[1..] == ts;
    OneSet(c, v, tail);
    if Starts(tail, Comma) {
      match ParseSets(tail[1..])
      case None =>
      case Some((ds, ws, _)) =>
        assert cs + ([c] + ds) == cs + [c] + ds && vs + ([v] + ws) == vs + [v] + ws;
    }
  }

  lemma {:induction false} SetsRead(cols: seq<string>, n: nat, all: seq<Value>, tail: seq<Token>)
    requires 0 < n <= |cols| && n <= |all|
    ensures ParseSets(Resolve(SetTokens(cols, n), all) + tail) == MoreSets(cols[..n], all[..n], tail)
  {
    var c, v := cols[n - 1], all[n - 1];
    var part := [Ident(c), Op(Eq), Ph(n)];
    assert Resolve(part, all) == [Ident(c), Op(Eq), Lit(v)];
    assert cols[..n] == cols[..n - 1] + [c] && all[..n] == all[..n - 1] + [v];
    if n == 1 {
      assert cols[..1] == [c] && all[..1] == [v];
      OneSet(c, v, tail);
    } else {
      var s := SetTokens(cols, n - 1);
      var more := [Comma] + (Resolve(part, all) + tail);
      ResolveJoin(s, [Comma], part, all);
      assert Resolve([Comma], all) == [Comma];
      assert Resolve(SetTokens(cols, n), all) + tail == Resolve(s, all) + more;
      SetsRead(cols, n - 1, all, more);
      NextSet(cols[..n - 1], all[..n - 1], c, v, tail);
    }
  }

  // The condition a WHERE clause reads back as; None when no clause is printed.
  function CondOf(where: seq<Entry>): Option<seq<Conj>> {
    if Chain(where) == [] then None else Some([Conj(Chain(where))])
  }

  predicate EndsCondition(rest: seq<Token>) {
    !Starts(rest, Kw(AND)) && !Starts(rest, Kw(OR)) && !Starts(rest, Kw(WHERE))
  }

  lemma WhereRead(where: seq<Entry>, start: nat, all: seq<Value>, rest: seq<Token>)
    requires WhereClauseOf(where, start).Ok?
    requires Window(all, start, WhereClauseOf(where, start).value.args)
    requires EndsCondition(rest)
    ensures ParseWhere(Resolve(WhereClauseOf(where, start).value.toks, all) + rest) == Some((CondOf(where), rest))
  {
    var f := CompileWhere(where, start).value;
    WhereNumbered(where, start);
    if f.toks == [] {
      assert Resolve([], all) + rest == rest;
    } else {
      WhereParses(where, start, all);
      var ts := Resolve(f.toks, all);
      Alternative(ts, Chain(where));
      ResolveConcat([Kw(WHERE)], f.toks, all);
      assert Resolve([Kw(WHERE)], all) == [Kw(WHERE)];
      assert ([Kw(WHERE)] + ts + rest)[1..] == ts + rest;
      assert ParseOr(ts + rest) == MoreOr([Conj(Chain(where))], rest);
    }
  }

  // The ORDER BY columns after trimming.
  function OrdersOf(order: seq<OrderBy>): seq<OrderBy> {
    seq(|order|, i requires 0 <= i < |order| => OrderBy(TrimSpace(order[i].column), order[i].desc))
  }

  function MoreOrders(os: seq<OrderBy>, tail: seq<Token>): Option<(seq<OrderBy>, seq<Token>)> {
    if !Starts(tail, Comma) then Some((os, tail))
    else match ParseOrders(tail[1..])
      case None => None
      case Some((more, rest)) => Some((os + more, rest))
  }

  function OrderPart(o: OrderBy): seq<Token> {
    [Ident(o.column), Kw(if o.desc then DESC else ASC)]
  }

  lemma OneOrder(o: OrderBy, tail: seq<Token>)
    ensures ParseOrders(OrderPart(o) + tail) == MoreOrders([o], tail)
  {
    var ts := OrderPart(o) + tail;
    assert ts[2..] == tail;
    if Starts(tail, Comma) {
      assert ts[3..] == tail[1..];
    }
  }

  lemma NextOrder(os: seq<OrderBy>, o: OrderBy, tail: seq<Token>)
    ensures MoreOrders(os, [Comma] + (OrderPart(o) + tail)) == MoreOrders(os + [o], tail)
  {
    var ts := OrderPart(o) + tail;
    assert ([Comma] + ts)[1..] == ts;
    OneOrder(o, tail);
    if Starts(tail, Comma) {
      match ParseOrders(tail[1..])
      case None =>
      case Some((more, _)) => assert os + ([o] + more) == os + [o] + more;
    }
  }

  function TrimmedOrder(o: OrderBy): OrderBy {
    OrderBy(TrimSpace(o.column), o.desc)
  }

  lemma OrderTokensLast(order: seq<OrderBy>, tail: seq<Token>)
    requires order != [] && OrderTokens(order).Ok?
    ensures var init, o := order[..|order| - 1], TrimmedOrder(order[|order| - 1]);
            && OrderTokens(init).Ok? && OrdersOf(order) == OrdersOf(init) + [o]
            && OrderTokens(order).value != []
            && OrderTokens(order).value + tail ==
               if OrderTokens(init).value == [] then OrderPart(o) + tail
               else OrderTokens(init).value + ([Comma] + (OrderPart(o) + tail))
  {
  }

  lemma {:induction false} OrdersRead(order: seq<OrderBy>, tail: seq<Token>)
    requires order != [] && OrderTokens(order).Ok?
    ensures OrderTokens(order).value != []
    ensures ParseOrders(OrderTokens(order).value + tail) == MoreOrders(OrdersOf(order), tail)
  {
    var init, o := order[..|order| - 1], TrimmedOrder(order[|order| - 1]);
    OrderTokensLast(order, tail);
    if init == [] {
      assert OrdersOf(order) == [o];
      OneOrder(o, tail);
    } else {
      OrdersRead(init, [Comma] + (OrderPart(o) + tail));
      NextOrder(OrdersOf(init), o, tail);
    }
  }

  lemma OrderByRead(order: seq<OrderBy>, rest: seq<Token>)
    requires OrderClause(order).Ok? && !Starts(rest, Comma) && !Starts(rest, Kw(ORDER))
    ensures ParseOrderBy(OrderClause(order).value + rest) == Some((OrdersOf(order), rest))
    ensures order != [] ==> OrderClause(order).value[..2] == [Kw(ORDER), Kw(BY)]
    ensures order == [] ==> OrderClause(order).value == []
  {
    if order == [] {
      assert OrdersOf(order) == [];
      assert OrderClause(order).value + rest == rest;
    } else {
      var o := OrderTokens(order).value;
      OrdersRead(order, rest);
      var ts := [Kw(ORDER), Kw(BY)] + o + rest;
      assert ts[2..] == o + rest && ts[1..][0] == Kw(BY);
    }
  }

  // ---------------------------------------------------------------- whole statements

  // What the server reads of a query sent in dialect `d`.
  function Received(d: Dialect, q: Query): Option<Stmt> {
    ParseStmt(Bind(Emit(d, q.toks), q.args, 0))
  }

  lemma ReceivedIsResolved(d: Dialect, q: Query)
    requires Numbered(q)
    ensures Received(d, q) == ParseStmt(Resolve(q.toks, q.args))
  {
    BothDialectsBindAlike(d, q.toks, q.args, 0, |q.args|);
  }

  function InsertHead(table: string, cols: seq<string>): seq<Token> {
    [Kw(INSERT), Kw(INTO), Ident(table), LP] + IdentList(cols) + [RP, Kw(VALUES), LP]
  }

  lemma InsertTailRead(table: string, cols: seq<string>, vals: seq<Value>, h: seq<Token>, ret: seq<Token>, r: Option<Columns>)
    requires ParseValues(h + ([RP] + ret)) == Some((vals, [RP] + ret)) && ParseReturning(ret) == Some(r)
    ensures ParseInsertTail(table, cols, [RP, Kw(VALUES), LP] + (h + ([RP] + ret))) == Some(InsertStmt(table, cols, vals, r))
  {
    var tail := [RP, Kw(VALUES), LP] + (h + ([RP] + ret));
    assert tail[3..] == h + ([RP] + ret) && tail[..3] == [RP, Kw(VALUES), LP];
    assert ([RP] + ret)[1..] == ret;
  }

  lemma InsertRead(table: string, cols: seq<string>, rest: seq<Token>)
    requires cols != []
    ensures ParseStmt(InsertHead(table, cols) + rest) == ParseInsertTail(table, cols, [RP, Kw(VALUES), LP] + rest)
  {
    var tail := [RP, Kw(VALUES), LP] + rest;
    var ts := InsertHead(table, cols) + rest;
    assert ts[4..] == IdentList(cols) + tail;
    IdentsRead(cols, tail);
  }

  lemma Associate(a: seq<Token>, b: seq<Token>, c: seq<Token>)
    ensures a + b + c == a + (b + c)
  {
  }

  lemma InsertText(name: string, values: seq<Entry>, returning: Option<seq<string>>)
    requires InsertOf(name, values, returning).Ok?
    ensures var q := InsertOf(name, values, returning).value;
            var (cols, vals) := NormalizedValues(values).value;
            && |cols| == |vals| && cols != [] && q.args == vals && Numbered(q)
            && Resolve(q.toks, vals) == InsertHead(TrimSpace(name), cols) + (Resolve(Holders(0, |cols|), vals) + ([RP] + ReturningTokens(returning).value))
  {
    var (cols, vals) := NormalizedValues(values).value;
    var a, h, c := InsertHead(TrimSpace(name), cols), Holders(0, |cols|), [RP] + ReturningTokens(returning).value;
    ValidValuesLengths(values);
    assert InsertOf(name, values, returning).value.toks == a + h + c;
    IdentListPlain(cols);
    ReturningPlain(returning);
    HoldersNumbered(0, |cols|);
    Framed(a, h, c, |cols|, vals);
    Associate(a, Resolve(h, vals), c);
  }

  /** Every INSERT numbers its placeholders 1, 2, ..., one per argument, and is received as
      an insertion of exactly the given columns and values. */
  lemma InsertReceived(d: Dialect, name: string, values: seq<Entry>, returning: Option<seq<string>>)
    requires InsertOf(name, values, returning).Ok?
    ensures Numbered(InsertOf(name, values, returning).value)
    ensures var nv := NormalizedValues(values).value;
            Received(d, InsertOf(name, values, returning).value) ==
            Some(InsertStmt(TrimSpace(name), nv.0, nv.1, ReturningOf(returning)))
  {
    var table, ret := TrimSpace(name), ReturningTokens(returning).value;
    var (cols, vals) := NormalizedValues(values).value;
    InsertText(name, values, returning);
    ReceivedIsResolved(d, InsertOf(name, values, returning).value);
    ReturningRead(returning);
    var h := Resolve(Holders(0, |cols|), vals);
    HoldersParse(0, vals, |vals|, vals, [RP] + ret);
    assert vals[..|vals|] == vals;
    InsertRead(table, cols, h + ([RP] + ret));
    InsertTailRead(table, cols, vals, h, ret, ReturningOf(returning));
  }

  lemma UpdateRead(table: string, cols: seq<string>, vals: seq<Value>, s: seq<Token>, w: seq<Token>, ret: seq<Token>,
                   cond: Option<seq<Conj>>, r: Option<Columns>)
    requires ParseSets(s + (w + ret)) == Some((cols, vals, w + ret))
    requires ParseWhere(w + ret) == Some((cond, ret)) && ParseReturning(ret) == Some(r)
    ensures ParseStmt([Kw(UPDATE), Ident(table), Kw(SET)] + (s + (w + ret))) == Some(UpdateStmt(table, cols, vals, cond, r))
  {
    assert ([Kw(UPDATE), Ident(table), Kw(SET)] + (s + (w + ret)))[3..] == s + (w + ret);
  }

  lemma Reassociate(a: seq<Token>, b: seq<Token>, c: seq<Token>, e: seq<Token>)
    ensures a + (b + c) + e == a + (b + (c + e)) && a + b + c + e == a + (b + (c + e))
  {
  }

  lemma SetsThen(cols: seq<string>, w: seq<Token>, m: nat, all: seq<Value>)
    requires PhNums(w) == UpTo(|cols|, m) && NoMarks(w)
    ensures var h := SetTokens(cols, |cols|) + w;
            && PhNums(h) == UpTo(0, |cols| + m) && NoMarks(h)
            && Resolve(h, all) == Resolve(SetTokens(cols, |cols|), all) + Resolve(w, all)
  {
    var s := SetTokens(cols, |cols|);
    SetTokensNumbered(cols, |cols|);
    UpToConcat(0, |cols|, m);
    PhNumsConcat(s, w);
    ResolveConcat(s, w, all);
  }

  lemma UpdateText(name: string, where: seq<Entry>, patch: seq<Entry>, returning: Option<seq<string>>)
    requires UpdateOf(name, where, patch, returning).Ok?
    ensures var q := UpdateOf(name, where, patch, returning).value;
            var (cols, vals) := NormalizedValues(patch).value;
            && Numbered(q) && |cols| == |vals| && q.args == vals + WhereClauseOf(where, |cols|).value.args
            && Resolve(q.toks, q.args) ==
               [Kw(UPDATE), Ident(TrimSpace(name)), Kw(SET)] +
               (Resolve(SetTokens(cols, |cols|), q.args) +
                (Resolve(WhereClauseOf(where, |cols|).value.toks, q.args) + ReturningTokens(returning).value))
  {
    var q := UpdateOf(name, where, patch, returning).value;
    var (cols, vals) := NormalizedValues(patch).value;
    ValidValuesLengths(patch);
    var w := WhereClauseOf(where, |cols|).value;
    var ret := ReturningTokens(returning).value;
    var head := [Kw(UPDATE), Ident(TrimSpace(name)), Kw(SET)];
    var s := SetTokens(cols, |cols|);
    Reassociate(head, s, w.toks, ret);
    WhereClauseNumbered(where, |cols|);
    SetsThen(cols, w.toks, |w.args|, q.args);
    ReturningPlain(returning);
    Framed(head, s + w.toks, ret, |q.args|, q.args);
    Reassociate(head, Resolve(s, q.args), Resolve(w.toks, q.args), ret);
  }

  lemma SetsAndWhereRead(cols: seq<string>, vals: seq<Value>, where: seq<Entry>, ret: seq<Token>, all: seq<Value>)
    requires cols != [] && |cols| == |vals| && WhereClauseOf(where, |vals|).Ok?
    requires all == vals + WhereClauseOf(where, |vals|).value.args
    requires ret == [] || ret[0] == Kw(RETURNING)
    ensures var wr := Resolve(WhereClauseOf(where, |vals|).value.toks, all);
            && ParseWhere(wr + ret) == Some((CondOf(where), ret))
            && ParseSets(Resolve(SetTokens(cols, |cols|), all) + (wr + ret)) == Some((cols, vals, wr + ret))
  {
    var wr := Resolve(WhereClauseOf(where, |vals|).value.toks, all);
    WhereRead(where, |vals|, all, ret);
    WhereStart(where, |vals|, all);
    assert !Starts(wr + ret, Comma);
    SetsRead(cols, |cols|, all, wr + ret);
    assert cols[..|cols|] == cols && all[..|cols|] == vals;
  }

  /** Every UPDATE numbers its SET placeholders first and its WHERE placeholders after them,
      and is received with the given assignments and a condition that is the filter tree's. */
  lemma UpdateReceived(d: Dialect, name: string, where: seq<Entry>, patch: seq<Entry>, returning: Option<seq<string>>)
    requires UpdateOf(name, where, patch, returning).Ok?
    ensures Numbered(UpdateOf(name, where, patch, returning).value)
    ensures var nv := NormalizedValues(patch).value;
            Received(d, UpdateOf(name, where, patch, returning).value) ==
            Some(UpdateStmt(TrimSpace(name), nv.0, nv.1, CondOf(where), ReturningOf(returning)))
  {
    var q := UpdateOf(name, where, patch, returning).value;
    var (cols, vals) := NormalizedValues(patch).value;
    UpdateText(name, where, patch, returning);
    ValidValuesLengths(patch);
    ReturningRead(returning);
    var ret := ReturningTokens(returning).value;
    SetsAndWhereRead(cols, vals, where, ret, q.args);
    ReceivedIsResolved(d, q);
    UpdateRead(TrimSpace(name), cols, vals, Resolve(SetTokens(cols, |cols|), q.args),
               Resolve(WhereClauseOf(where, |cols|).value.toks, q.args), ret, CondOf(where), ReturningOf(returning));
  }

  // A printed clause starts with WHERE.
  lemma WhereStart(where: seq<Entry>, start: nat, all: seq<Value>)
    requires WhereClauseOf(where, start).Ok?
    ensures var ts := Resolve(WhereClauseOf(where, start).value.toks, all); ts == [] || ts[0] == Kw(WHERE)
  {
  }

  /** Every DELETE is received with a condition that is the filter tree's. */
  lemma DeleteReceived(d: Dialect, name: string, where: seq<Entry>)
    requires DeleteOf(name, where).Ok?
    ensures Numbered(DeleteOf(name, where).value)
    ensures Received(d, DeleteOf(name, where).value) == Some(DeleteStmt(TrimSpace(name), CondOf(where)))
  {
    var q := DeleteOf(name, where).value;
    var table := TrimSpace(name);
    var w := WhereClauseOf(where, 0).value;
    var head := [Kw(DELETE), Kw(FROM), Ident(table)];
    PlainText(head, q.args);
    PhNumsConcat(head, w.toks);
    WhereClauseNumbered(where, 0);
    ReceivedIsResolved(d, q);
    ResolveConcat(head, w.toks, q.args);
    var wr := Resolve(w.toks, q.args);
    WhereRead(where, 0, q.args, []);
    assert (head + wr)[3..] == wr && wr + [] == wr;
  }

  function LimitOf(n: int): Option<Value> {
    if n > 0 then Some(Num(n)) else None
  }

  lemma LimitedNumbered(q: Query, kw: Keyword, n: int)
    requires Numbered(q)
    ensures Numbered(Limited(q, kw, n))
  {
    if n > 0 {
      PhNumsConcat(q.toks, [Kw(kw), Ph(|q.args| + 1)]);
      PhNumsConcat([Kw(kw)], [Ph(|q.args| + 1)]);
      assert [Kw(kw)] + [Ph(|q.args| + 1)] == [Kw(kw), Ph(|q.args| + 1)];
      assert [Ph(|q.args| + 1)][1..] == [] && [Kw(kw)][1..] == [];
      UpToConcat(0, |q.args|, 1);
    }
  }

  // The text of LIMIT or OFFSET once its argument is bound.
  function LimitTokens(kw: Keyword, n: int): seq<Token> {
    if n > 0 then [Kw(kw), Lit(Num(n))] else []
  }

  lemma LimitedResolves(q: Query, kw: Keyword, n: int, all: seq<Value>)
    requires Limited(q, kw, n).args <= all
    ensures Resolve(Limited(q, kw, n).toks, all) == Resolve(q.toks, all) + LimitTokens(kw, n)
  {
    if n > 0 {
      var args := Limited(q, kw, n).args;
      assert all[|q.args|] == args[|q.args|] == Num(n);
      ResolveConcat(q.toks, [Kw(kw), Ph(|q.args| + 1)], all);
      assert Resolve([Kw(kw), Ph(|q.args| + 1)], all) == [Kw(kw), Lit(Num(n))];
    } else {
      assert Resolve(q.toks, all) + [] == Resolve(q.toks, all);
    }
  }

  lemma LimitsRead(limit: int, offset: int)
    ensures var ts := LimitTokens(LIMIT, limit) + LimitTokens(OFFSET, offset);
            var (l, rest) := ParseLimit(LIMIT, ts);
            var (o, end) := ParseLimit(OFFSET, rest);
            l == LimitOf(limit) && o == LimitOf(offset) && end == []
  {
    var ts := LimitTokens(LIMIT, limit) + LimitTokens(OFFSET, offset);
    if limit > 0 {
      assert ts[2..] == LimitTokens(OFFSET, offset);
    } else {
      assert ts == LimitTokens(OFFSET, offset);
    }
  }

  // The SELECT text before LIMIT and OFFSET.
  function SelectBody(name: string, opts: FindOptions): Query
    requires SelectOf(name, opts).Ok?
  {
    var w := WhereClauseOf(opts.where, 0).value;
    Query([Kw(SELECT)] + ColumnTokens(SelectColumns(opts.columns).value) + [Kw(FROM), Ident(TrimSpace(name))] +
          w.toks + OrderClause(opts.order).value, w.args)
  }

  lemma SelectBodyText(name: string, opts: FindOptions, all: seq<Value>)
    requires SelectOf(name, opts).Ok?
    ensures Numbered(SelectBody(name, opts))
    ensures Resolve(SelectBody(name, opts).toks, all) ==
            [Kw(SELECT)] + ColumnTokens(SelectColumns(opts.columns).value) + [Kw(FROM), Ident(TrimSpace(name))] +
            Resolve(WhereClauseOf(opts.where, 0).value.toks, all) + OrderClause(opts.order).value
  {
    var w := WhereClauseOf(opts.where, 0).value;
    ColumnTokensPlain(SelectColumns(opts.columns).value);
    OrderTokensPlain(opts.order);
    WhereClauseNumbered(opts.where, 0);
    Framed([Kw(SELECT)] + ColumnTokens(SelectColumns(opts.columns).value) + [Kw(FROM), Ident(TrimSpace(name))],
           w.toks, OrderClause(opts.order).value, |w.args|, all);
  }

  lemma SelectTailRead(sel: Columns, table: string, w: seq<Token>, o: seq<Token>, ls: seq<Token>,
                       cond: Option<seq<Conj>>, order: seq<OrderBy>, limit: int, offset: int)
    requires ParseWhere(w + (o + ls)) == Some((cond, o + ls)) && ParseOrderBy(o + ls) == Some((order, ls))
    requires ls == LimitTokens(LIMIT, limit) + LimitTokens(OFFSET, offset)
    ensures ParseSelectTail(sel, [Kw(FROM), Ident(table)] + (w + (o + ls))) ==
            Some(SelectStmt(sel, table, cond, order, LimitOf(limit), LimitOf(offset)))
  {
    var tail := [Kw(FROM), Ident(table)] + (w + (o + ls));
    assert tail[2..] == w + (o + ls);
    LimitsRead(limit, offset);
  }

  lemma SelectRead(sel: Columns, ts: seq<Token>, tail: seq<Token>)
    requires ParseColumns(ts) == Some((sel, tail))
    ensures ParseStmt([Kw(SELECT)] + ts) == ParseSelectTail(sel, tail)
  {
    var all := [Kw(SELECT)] + ts;
    assert all[0] == Kw(SELECT) && all[1..] == ts;
    assert ParseStmt(all) == ParseSelect(all);
  }

  lemma LimitedTwice(body: Query, limit: int, offset: int)
    requires Numbered(body)
    ensures var q := Limited(Limited(body, LIMIT, limit), OFFSET, offset);
            && Numbered(q) && body.args <= q.args
            && Resolve(q.toks, q.args) == Resolve(body.toks, q.args) + (LimitTokens(LIMIT, limit) + LimitTokens(OFFSET, offset))
  {
    var limited := Limited(body, LIMIT, limit);
    var q := Limited(limited, OFFSET, offset);
    LimitedNumbered(body, LIMIT, limit);
    LimitedNumbered(limited, OFFSET, offset);
    LimitedResolves(limited, OFFSET, offset, q.args);
    LimitedResolves(body, LIMIT, limit, q.args);
  }

  /** Every SELECT numbers LIMIT and OFFSET after the WHERE placeholders, and is received with
      the given columns, the filter tree's condition, the order and the limits. */
  lemma SelectReceived(d: Dialect, name: string, opts: FindOptions)
    requires SelectOf(name, opts).Ok?
    ensures Numbered(SelectOf(name, opts).value)
    ensures Received(d, SelectOf(name, opts).value) ==
            Some(SelectStmt(SelectColumns(opts.columns).value, TrimSpace(name), CondOf(opts.where), OrdersOf(opts.order),
                            LimitOf(opts.limit), LimitOf(opts.offset)))
  {
    var q := SelectOf(name, opts).value;
    var body := SelectBody(name, opts);
    assert q == Limited(Limited(body, LIMIT, opts.limit), OFFSET, opts.offset);
    SelectBodyText(name, opts, q.args);
    LimitedTwice(body, opts.limit, opts.offset);
    ReceivedIsResolved(d, q);
    var sel := SelectColumns(opts.columns).value;
    var w := WhereClauseOf(opts.where, 0).value;
    var wr := Resolve(w.toks, q.args);
    var order := OrderClause(opts.order).value;
    var ls := LimitTokens(LIMIT, opts.limit) + LimitTokens(OFFSET, opts.offset);
    var table := TrimSpace(name);
    ColumnsRead(opts.columns, [Kw(FROM), Ident(table)] + (wr + (order + ls)));
    OrderByRead(opts.order, ls);
    assert EndsCondition(order + ls) by {
      assert opts.order != [] ==> (order + ls)[0] == order[..2][0];
    }
    WhereRead(opts.where, 0, q.args, order + ls) by {
      assert q.args[..|w.args|] == w.args;
    }
    Reassociate([Kw(SELECT)], ColumnTokens(sel), [Kw(FROM), Ident(table)], wr + (order + ls));
    Reassociate([Kw(SELECT)] + ColumnTokens(sel) + [Kw(FROM), Ident(table)], wr, order, ls);
    SelectRead(sel, ColumnTokens(sel) + ([Kw(FROM), Ident(table)] + (wr + (order + ls))), [Kw(FROM), Ident(table)] + (wr + (order + ls)));
    SelectTailRead(sel, table, wr, order, ls, CondOf(opts.where), OrdersOf(opts.order), opts.limit, opts.offset);
  }
}
