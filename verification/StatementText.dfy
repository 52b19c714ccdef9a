/** The characters of whole statements: what a server reads of the text of a query. */
module StatementText {
  import opened Strings
  import opened Sql
  import opened SqlText
  import opened Where
  import opened WhereNames
  import opened Statements
  import opened StatementParse

  // What the server reads of the text of a query and its arguments.
  function ReadStatement(reserved: set<string>, text: string, args: seq<Value>): Option<Stmt> {
    match Lex(reserved, text)
    case None => None
    case Some(ts) => ParseStmt(Bind(ts, args, 0))
  }

  function TextOf(d: Dialect, q: Query): string {
    Render(Emit(d, q.toks))
  }

  // ---------------------------------------------------------------- every statement can be printed

  lemma PrintableConcat(a: seq<Token>, b: seq<Token>)
    ensures AllPrintable(a + b) <==> AllPrintable(a) && AllPrintable(b)
  {
    var ts := a + b;
    if AllPrintable(ts) {
      assert forall i :: 0 <= i < |a| ==> a[i] == ts[i];
      assert forall i :: 0 <= i < |b| ==> b[i] == ts[|a| + i];
    }
  }

  lemma {:induction false} IdentListPrintable(cols: seq<string>)
    requires forall i :: 0 <= i < |cols| ==> IsIdent(cols[i])
    ensures AllPrintable(IdentList(cols))
  {
    if |cols| > 1 {
      IdentListPrintable(cols[1..]);
    }
  }

  lemma {:induction false} ValidColumnsAreIdents(cs: seq<string>)
    requires ValidColumns(cs).Ok? && ValidColumns(cs).value.Some?
    ensures forall i :: 0 <= i < |ValidColumns(cs).value.value| ==> IsIdent(ValidColumns(cs).value.value[i])
  {
    if cs != [] {
      ValidColumnsAreIdents(cs[1..]);
    }
  }

  lemma ColumnTokensPrintable(columns: seq<string>)
    requires SelectColumns(columns).Ok?
    ensures AllPrintable(ColumnTokens(SelectColumns(columns).value))
  {
    if SelectColumns(columns).value.Some? {
      ValidColumnsAreIdents(columns);
      IdentListPrintable(SelectColumns(columns).value.value);
    }
  }

  lemma {:induction false} ValidValuesAreIdents(values: seq<Entry>)
    requires ValidValues(values).Ok?
    ensures forall i :: 0 <= i < |ValidValues(values).value.0| ==> IsIdent(ValidValues(values).value.0[i])
  {
    if values != [] {
      ValidValuesAreIdents(values[..|values| - 1]);
    }
  }

  lemma {:induction false} HoldersPrintable(start: nat, n: nat)
    ensures AllPrintable(Holders(start, n))
  {
    HoldersNameless(start, n);
  }

  lemma {:induction false} SetTokensPrintable(cols: seq<string>, n: nat)
    requires n <= |cols| && forall i :: 0 <= i < |cols| ==> IsIdent(cols[i])
    ensures AllPrintable(SetTokens(cols, n))
  {
    if n > 1 {
      SetTokensPrintable(cols, n - 1);
      var part := [Ident(cols[n - 1]), Op(Eq), Ph(n)];
      PrintableConcat(SetTokens(cols, n - 1), [Comma]);
      PrintableConcat(SetTokens(cols, n - 1) + [Comma], part);
    }
  }

  lemma {:induction false} OrderTokensPrintable(order: seq<OrderBy>)
    requires OrderTokens(order).Ok?
    ensures AllPrintable(OrderTokens(order).value)
  {
    if order != [] {
      var init, last := order[..|order| - 1], order[|order| - 1];
      OrderTokensPrintable(init);
      var part := [Ident(ValidIdentifier(last.column).value), Kw(if last.desc then DESC else ASC)];
      PrintableConcat(OrderTokens(init).value, [Comma]);
      PrintableConcat(OrderTokens(init).value + [Comma], part);
    }
  }

  lemma ReturningPrintable(returning: Option<seq<string>>)
    requires ReturningTokens(returning).Ok?
    ensures AllPrintable(ReturningTokens(returning).value)
  {
    if returning.Some? {
      ColumnTokensPrintable(returning.value);
      PrintableConcat([Kw(RETURNING)], ColumnTokens(SelectColumns(returning.value).value));
    }
  }

  lemma WhereClausePrintable(where: seq<Entry>, start: nat)
    requires WhereClauseOf(where, start).Ok?
    ensures AllPrintable(WhereClauseOf(where, start).value.toks)
  {
    WhereSpelled({}, where, start);
    PrintableConcat([Kw(WHERE)], CompileWhere(where, start).value.toks);
  }

  lemma InsertPrintable(name: string, values: seq<Entry>, returning: Option<seq<string>>)
    requires InsertOf(name, values, returning).Ok?
    ensures AllPrintable(InsertOf(name, values, returning).value.toks)
  {
    var cols := NormalizedValues(values).value.0;
    var head := [Kw(INSERT), Kw(INTO), Ident(ValidIdentifier(name).value), LP];
    var mid := [RP, Kw(VALUES), LP];
    ValidValuesAreIdents(values);
    IdentListPrintable(cols);
    HoldersPrintable(0, |cols|);
    ReturningPrintable(returning);
    PrintableConcat(head, IdentList(cols));
    PrintableConcat(head + IdentList(cols), mid);
    PrintableConcat(head + IdentList(cols) + mid, Holders(0, |cols|));
    PrintableConcat(head + IdentList(cols) + mid + Holders(0, |cols|), [RP]);
    PrintableConcat(head + IdentList(cols) + mid + Holders(0, |cols|) + [RP], ReturningTokens(returning).value);
  }

  lemma UpdatePrintable(name: string, where: seq<Entry>, patch: seq<Entry>, returning: Option<seq<string>>)
    requires UpdateOf(name, where, patch, returning).Ok?
    ensures AllPrintable(UpdateOf(name, where, patch, returning).value.toks)
  {
    var (cols, vals) := NormalizedValues(patch).value;
    var head := [Kw(UPDATE), Ident(ValidIdentifier(name).value), Kw(SET)];
    var w := WhereClauseOf(where, |vals|).value.toks;
    ValidValuesAreIdents(patch);
    SetTokensPrintable(cols, |cols|);
    WhereClausePrintable(where, |vals|);
    ReturningPrintable(returning);
    PrintableConcat(head, SetTokens(cols, |cols|));
    PrintableConcat(head + SetTokens(cols, |cols|), w);
    PrintableConcat(head + SetTokens(cols, |cols|) + w, ReturningTokens(returning).value);
  }

  lemma DeletePrintable(name: string, where: seq<Entry>)
    requires DeleteOf(name, where).Ok?
    ensures AllPrintable(DeleteOf(name, where).value.toks)
  {
    WhereClausePrintable(where, 0);
    PrintableConcat([Kw(DELETE), Kw(FROM), Ident(ValidIdentifier(name).value)], WhereClauseOf(where, 0).value.toks);
  }

  lemma LimitedPrintable(q: Query, kw: Keyword, n: int)
    requires AllPrintable(q.toks)
    ensures AllPrintable(Limited(q, kw, n).toks)
  {
    PrintableConcat(q.toks, [Kw(kw), Ph(|q.args| + 1)]);
  }

  lemma SelectPrintable(name: string, opts: FindOptions)
    requires SelectOf(name, opts).Ok?
    ensures AllPrintable(SelectOf(name, opts).value.toks)
  {
    var cols, from := ColumnTokens(SelectColumns(opts.columns).value), [Kw(FROM), Ident(ValidIdentifier(name).value)];
    var w, o := WhereClauseOf(opts.where, 0).value, OrderClause(opts.order).value;
    ColumnTokensPrintable(opts.columns);
    WhereClausePrintable(opts.where, 0);
    OrderTokensPrintable(opts.order);
    PrintableConcat([Kw(ORDER), Kw(BY)], OrderTokens(opts.order).value);
    PrintableConcat([Kw(SELECT)], cols);
    PrintableConcat([Kw(SELECT)] + cols, from);
    PrintableConcat([Kw(SELECT)] + cols + from, w.toks);
    PrintableConcat([Kw(SELECT)] + cols + from + w.toks, o);
    var q := Query([Kw(SELECT)] + cols + from + w.toks + o, w.args);
    LimitedPrintable(q, LIMIT, opts.limit);
    LimitedPrintable(Limited(q, LIMIT, opts.limit), OFFSET, opts.offset);
  }

  // ---------------------------------------------------------------- what the server reads

  /** The server splits the text of a statement into the tokens that were printed exactly when it takes
      every table and column in it for a name; then it reads the statement that was meant. */
  lemma TextReceivedIff(reserved: set<string>, d: Dialect, q: Query)
    requires AllPrintable(q.toks)
    ensures Lex(reserved, TextOf(d, q)) == Some(Emit(d, q.toks)) <==> AllPlain(reserved, q.toks)
    ensures AllPlain(reserved, q.toks) ==> ReadStatement(reserved, TextOf(d, q), q.args) == Received(d, q)
  {
    EmittedText(reserved, d, q.toks);
  }

  lemma InsertTextReceived(reserved: set<string>, d: Dialect, name: string, values: seq<Entry>, returning: Option<seq<string>>)
    requires InsertOf(name, values, returning).Ok? && AllPlain(reserved, InsertOf(name, values, returning).value.toks)
    ensures var q := InsertOf(name, values, returning).value;
            var nv := NormalizedValues(values).value;
            ReadStatement(reserved, TextOf(d, q), q.args) == Some(InsertStmt(TrimSpace(name), nv.0, nv.1, ReturningOf(returning)))
  {
    InsertPrintable(name, values, returning);
    TextReceivedIff(reserved, d, InsertOf(name, values, returning).value);
    InsertReceived(d, name, values, returning);
  }

  lemma UpdateTextReceived(reserved: set<string>, d: Dialect, name: string, where: seq<Entry>, patch: seq<Entry>, returning: Option<seq<string>>)
    requires UpdateOf(name, where, patch, returning).Ok? && AllPlain(reserved, UpdateOf(name, where, patch, returning).value.toks)
    ensures var q := UpdateOf(name, where, patch, returning).value;
            var nv := NormalizedValues(patch).value;
            ReadStatement(reserved, TextOf(d, q), q.args) ==
            Some(UpdateStmt(TrimSpace(name), nv.0, nv.1, CondOf(where), ReturningOf(returning)))
  {
    UpdatePrintable(name, where, patch, returning);
    TextReceivedIff(reserved, d, UpdateOf(name, where, patch, returning).value);
    UpdateReceived(d, name, where, patch, returning);
  }

  lemma DeleteTextReceived(reserved: set<string>, d: Dialect, name: string, where: seq<Entry>)
    requires DeleteOf(name, where).Ok? && AllPlain(reserved, DeleteOf(name, where).value.toks)
    ensures var q := DeleteOf(name, where).value;
            ReadStatement(reserved, TextOf(d, q), q.args) == Some(DeleteStmt(TrimSpace(name), CondOf(where)))
  {
    DeletePrintable(name, where);
    TextReceivedIff(reserved, d, DeleteOf(name, where).value);
    DeleteReceived(d, name, where);
  }

  lemma SelectTextReceived(reserved: set<string>, d: Dialect, name: string, opts: FindOptions)
    requires SelectOf(name, opts).Ok? && AllPlain(reserved, SelectOf(name, opts).value.toks)
    ensures var q := SelectOf(name, opts).value;
            ReadStatement(reserved, TextOf(d, q), q.args) ==
            Some(SelectStmt(SelectColumns(opts.columns).value, TrimSpace(name), CondOf(opts.where), OrdersOf(opts.order),
                            LimitOf(opts.limit), LimitOf(opts.offset)))
  {
    SelectPrintable(name, opts);
    TextReceivedIff(reserved, d, SelectOf(name, opts).value);
    SelectReceived(d, name, opts);
  }

  // ---------------------------------------------------------------- names in a column list

  lemma {:induction false} IdentListHolds(cols: seq<string>, c: string)
    requires c in cols
    ensures Ident(c) in IdentList(cols)
  {
    if cols[0] != c {
      IdentListHolds(cols[1..], c);
    }
  }

  lemma NameInTokens(reserved: set<string>, ts: seq<Token>, c: string)
    requires Ident(c) in ts && !PlainName(reserved, c)
    ensures !AllPlain(reserved, ts)
  {
    var i :| 0 <= i < |ts| && ts[i] == Ident(c);
  }

  /** A SELECT of a column whose name is not taken for one. */
  lemma SelectedColumnUnread(reserved: set<string>, name: string, opts: FindOptions, c: string)
    requires SelectOf(name, opts).Ok? && SelectColumns(opts.columns).value.Some?
    requires c in SelectColumns(opts.columns).value.value && !PlainName(reserved, c)
    ensures !AllPlain(reserved, SelectOf(name, opts).value.toks)
  {
    var cols := ColumnTokens(SelectColumns(opts.columns).value);
    IdentListHolds(SelectColumns(opts.columns).value.value, c);
    var head := [Kw(SELECT)] + cols;
    assert Ident(c) in cols;
    assert Ident(c) in head;
    var ts := SelectOf(name, opts).value.toks;
    assert head <= ts;
    assert Ident(c) in ts by {
      var i :| 0 <= i < |head| && head[i] == Ident(c);
      assert ts[i] == head[i];
    }
    NameInTokens(reserved, ts, c);
  }
}
