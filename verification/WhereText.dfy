/** The characters of a compiled filter and what a server makes of them. */
module WhereText {
  import opened Strings
  import opened Sql
  import opened SqlText
  import opened Where
  import opened WhereMeaning
  import opened WhereParse
  import opened WhereNames
  import opened WhereRefused

  // ---------------------------------------------------------------- the main theorem

  // What the server makes of a condition sent as text with its arguments.
  function ReadCondition(reserved: set<string>, text: string, args: seq<Value>): Option<seq<Conj>> {
    match Lex(reserved, text)
    case None => None
    case Some(ts) => ParseCondition(Bind(ts, args, 0))
  }

  lemma RenderedEmpty(ts: seq<Token>)
    requires AllPrintable(ts)
    ensures Render(ts) == "" <==> ts == []
  {
    if ts != [] {
      TokenReads({}, ts[0], "");
    }
  }

  /** For every filter tree the compiler accepts, every dialect, engine and row: the text it sends,
      split into tokens by the server, bound to its arguments and parsed with NOT > AND > OR, has the
      tree's own meaning if the server takes every column of the tree for a name; otherwise it is no
      condition at all.  The server reads the very tokens that were printed exactly then.  The text is
      empty, without arguments, exactly when no field condition occurs at any depth. */
  lemma CompiledTextMeansTree(reserved: set<string>, d: Dialect, eng: Engine, es: seq<Entry>, row: Row)
    requires WellFormed(es)
    ensures CompileWhere(es, 0).Ok?
    ensures var f := CompileWhere(es, 0).value;
            var text := Render(Emit(d, f.toks));
            && (text == "" <==> !HasField(es)) && (text == "" ==> f.args == [])
            && (Lex(reserved, text) == Some(Emit(d, f.toks)) <==> NamesPlain(reserved, es))
            && (HasField(es) ==>
                  var read := ReadCondition(reserved, text, f.args);
                  && (read.Some? <==> NamesPlain(reserved, es))
                  && (read.Some? ==> Some(EvalAny(eng, read.value, row)) == Meaning(eng, es, row)))
  {
    CompiledTokensMeanTree(d, eng, es, row);
    var f := CompileWhere(es, 0).value;
    WhereSpelled(reserved, es, 0);
    EmittedText(reserved, d, f.toks);
    RenderedEmpty(Emit(d, f.toks));
    if !NamesPlain(reserved, es) {
      RefusedText(reserved, d, es);
    }
  }

  // A text in which some column is not taken for a name is no condition.
  lemma RefusedText(reserved: set<string>, d: Dialect, es: seq<Entry>)
    requires WellFormed(es) && CompileWhere(es, 0).Ok? && !NamesPlain(reserved, es)
    ensures var f := CompileWhere(es, 0).value; ReadCondition(reserved, Render(Emit(d, f.toks)), f.args) == None
  {
    var f := CompileWhere(es, 0).value;
    WhereSpelled(reserved, es, 0);
    EmittedText(reserved, d, f.toks);
    LexRendered(reserved, Emit(d, f.toks));
    var read := RelexAll(reserved, Emit(d, f.toks));
    if read.Some? {
      RelexIsTaken(reserved, Emit(d, f.toks));
      BindTaken(reserved, Emit(d, f.toks), f.args, 0);
      WhereNumbered(es, 0);
      BothDialectsBindAlike(d, f.toks, f.args, 0, |f.args|);
      WhereFails(reserved, es, 0, f.args);
      var ts := TakenAll(reserved, Resolve(f.toks, f.args));
      assert ts + [] == ts;
      assert ParseAnd(ts) == None;
    }
  }

  /** A column called `order`: the text `order = $1` is not read as a condition at all. */
  lemma ReservedColumnUnread(reserved: set<string>, d: Dialect)
    ensures var es := [Entry("order", Num(1))];
            && WellFormed(es) && HasField(es) && CompileWhere(es, 0).Ok?
            && ReadCondition(reserved, Render(Emit(d, CompileWhere(es, 0).value.toks)), CompileWhere(es, 0).value.args) == None
  {
    var es := [Entry("order", Num(1))];
    var toks := [Ident("order"), Op(Eq), Ph(1)];
    assert ToUpper("order") == "ORDER" && TrimLeft("order") == "order" && TrimRight("order") == "order";
    assert KindOf("order") == Column && IsIdent("order");
    assert WellFormedEntry(es[0]) && EntryHasField(es[0]);
    AcceptsExactlyWellFormed(es, 0);
    assert es[..0] == [];
    assert WhereParts([], 0) == Ok(Parts([], [], 0));
    assert CompileEntry(es[0], 0) == Ok(Frag(toks, [Num(1)], 1));
    assert WhereParts(es, 0) == Ok(Parts([] + [toks], [] + [Num(1)], 1));
    assert CompileWhere(es, 0).value.toks == toks;
    OrderTextUnread(reserved, d, toks, CompileWhere(es, 0).value.args);
  }

  lemma {:induction false} OrderRelexed(reserved: set<string>, ts: seq<Token>)
    requires ts != [] && ts[0] == Ident("order") && RelexAll(reserved, ts).Some?
    ensures RelexAll(reserved, ts).value != [] && RelexAll(reserved, ts).value[0] == Kw(ORDER)
  {
    assert ToUpper("order") == "ORDER";
  }

  lemma OrderTextUnread(reserved: set<string>, d: Dialect, toks: seq<Token>, args: seq<Value>)
    requires toks == [Ident("order"), Op(Eq), Ph(1)] && AllPrintable(toks)
    ensures ReadCondition(reserved, Render(Emit(d, toks)), args) == None
  {
    var sent := Emit(d, toks);
    EmittedText(reserved, d, toks);
    EmitAt(d, toks);
    LexRendered(reserved, sent);
    if RelexAll(reserved, sent).Some? {
      OrderRelexed(reserved, sent);
      NotACondition(Bind(RelexAll(reserved, sent).value, args, 0));
    }
  }

  // A condition starts with NOT, a parenthesis or a name.
  lemma NotACondition(ts: seq<Token>)
    requires ts != [] && ts[0] == Kw(ORDER)
    ensures ParseCondition(ts) == None
  {
    assert ParsePredicate(ts) == None;
    assert ParsePrimary(ts) == None;
    assert ParseFactor(ts) == None;
    assert ParseAnd(ts) == None;
  }
}
