/** The exact characters of conditions and statements, word by word. */
module PrintedText {
  import opened Strings
  import opened Sql
  import opened SqlText
  import opened Where
  import opened Statements
  import opened StatementText
  import opened Spelling
  import opened FilterKeys

  // ---------------------------------------------------------------- texts put together

  // strings.Join
  function Joined(parts: seq<string>, sep: string): string {
    if parts == [] then ""
    else if |parts| == 1 then parts[0]
    else Joined(parts[..|parts| - 1], sep) + sep + parts[|parts| - 1]
  }

  function Spaced(words: seq<string>): string {
    Joined(words, " ")
  }

  function Parens(s: string): string {
    "(" + s + ")"
  }

  // The n-th placeholder.
  function Hole(d: Dialect, n: nat): string {
    if d.Numbered? then "$" + Itoa(n) else "?"
  }

  function Holes(d: Dialect, start: nat, n: nat): seq<string> {
    seq(n, i requires 0 <= i < n => Hole(d, start + 1 + i))
  }

  function Sent(d: Dialect, ts: seq<Token>): string {
    Render(Emit(d, ts))
  }

  lemma JoinedAppend(parts: seq<string>, part: string, sep: string)
    requires parts != []
    ensures Joined(parts + [part], sep) == Joined(parts, sep) + sep + part
  {
    assert (parts + [part])[..|parts|] == parts;
  }

  lemma JoinedOne(part: string, sep: string)
    ensures Joined([part], sep) == part
  {
  }

  // ---------------------------------------------------------------- sending tokens one after the other

  // No blank goes missing at either end.
  predicate Edged(ts: seq<Token>) {
    ts != [] && !ts[|ts| - 1].LP? && !ts[0].RP? && !ts[0].Comma?
  }

  lemma {:induction false} EmitConcat(d: Dialect, a: seq<Token>, b: seq<Token>)
    ensures Emit(d, a + b) == Emit(d, a) + Emit(d, b)
  {
    if a == [] {
      assert a + b == b;
    } else {
      EmitConcat(d, a[1..], b);
      assert (a + b)[1..] == a[1..] + b;
    }
  }

  lemma SentConcat(d: Dialect, a: seq<Token>, b: seq<Token>)
    requires a != [] && b != []
    ensures Sent(d, a + b) == Sent(d, a) + Gap(a[|a| - 1], b[0]) + Sent(d, b)
  {
    EmitConcat(d, a, b);
    EmitAt(d, a);
    EmitAt(d, b);
    PrintedConcat(TokenText, Emit(d, a), Emit(d, b));
  }

  lemma SentOne(d: Dialect, t: Token)
    ensures Sent(d, [t]) == if t.Ph? then Hole(d, t.n) else TokenText(t)
  {
    assert [t][1..] == [];
    assert Emit(d, [t]) == [if t.Ph? && d.Positional? then Mark else t];
  }

  lemma {:induction false} SpacedConcat(a: seq<string>, b: seq<string>)
    requires a != [] && b != []
    ensures Spaced(a + b) == Spaced(a) + " " + Spaced(b)
  {
    var init, last := b[..|b| - 1], b[|b| - 1];
    assert b == init + [last];
    if init == [] {
      assert a + b == a + [last];
      JoinedAppend(a, last, " ");
    } else {
      SpacedConcat(a, init);
      assert a + b == (a + init) + [last];
      JoinedAppend(a + init, last, " ");
      JoinedAppend(init, last, " ");
      Assoc(Spaced(a), " ", Spaced(init), " ", last);
    }
  }

  lemma Assoc(a: string, b: string, c: string, x: string, y: string)
    ensures a + b + c + x + y == a + b + (c + x + y)
  {
  }

  // A piece that may be left out.
  predicate Reads(d: Dialect, ts: seq<Token>, words: seq<string>) {
    if ts == [] then words == [] else Edged(ts) && words != [] && Sent(d, ts) == Spaced(words)
  }

  lemma Follows(d: Dialect, a: seq<Token>, wa: seq<string>, b: seq<Token>, wb: seq<string>)
    requires a != [] && Reads(d, a, wa) && Reads(d, b, wb)
    ensures Reads(d, a + b, wa + wb)
  {
    if b == [] {
      assert a + b == a && wa + wb == wa;
    } else {
      SentConcat(d, a, b);
      SpacedConcat(wa, wb);
    }
  }

  lemma WithText(d: Dialect, a: seq<Token>, words: seq<string>, b: seq<Token>, text: string)
    requires a != [] && Reads(d, a, words) && Edged(b) && Sent(d, b) == text
    ensures Reads(d, a + b, words + [text])
  {
    JoinedOne(text, " ");
    Follows(d, a, words, b, [text]);
  }

  function WordOf(d: Dialect, t: Token): string {
    if t.Ph? then Hole(d, t.n) else TokenText(t)
  }

  function WordsOf(d: Dialect, ts: seq<Token>): seq<string> {
    seq(|ts|, i requires 0 <= i < |ts| => WordOf(d, ts[i]))
  }

  // Tokens other than parentheses and commas go out as words.
  lemma {:induction false} ReadsWords(d: Dialect, ts: seq<Token>)
    requires forall i :: 0 <= i < |ts| ==> !ts[i].LP? && !ts[i].RP? && !ts[i].Comma?
    ensures Reads(d, ts, WordsOf(d, ts))
  {
    if ts != [] {
      var init, last := ts[..|ts| - 1], ts[|ts| - 1];
      SentOne(d, last);
      assert ts == init + [last] && WordsOf(d, ts) == WordsOf(d, init) + [WordOf(d, last)];
      if init != [] {
        ReadsWords(d, init);
        Follows(d, init, WordsOf(d, init), [last], [WordOf(d, last)]);
      }
    }
  }

  lemma Listing(d: Dialect, a: seq<Token>, parts: seq<string>, b: seq<Token>, part: string)
    requires Edged(a) && Edged(b) && parts != [] && Sent(d, a) == Joined(parts, ", ") && Sent(d, b) == part
    ensures Edged(a + [Comma] + b) && Sent(d, a + [Comma] + b) == Joined(parts + [part], ", ")
  {
    SentOne(d, Comma);
    SentConcat(d, a, [Comma]);
    SentConcat(d, a + [Comma], b);
    JoinedAppend(parts, part, ", ");
    CommaForm(Sent(d, a), part);
  }

  lemma CommaForm(a: string, b: string)
    ensures a + "" + "," + " " + b == a + ", " + b
  {
  }

  lemma EmitParens(d: Dialect, a: seq<Token>)
    ensures Emit(d, [LP] + a + [RP]) == [LP] + Emit(d, a) + [RP]
  {
    EmitConcat(d, [LP] + a, [RP]);
    EmitConcat(d, [LP], a);
    EmitAt(d, [LP]);
    EmitAt(d, [RP]);
  }

  lemma SentParens(d: Dialect, a: seq<Token>)
    requires a != []
    ensures Edged([LP] + a + [RP]) && Sent(d, [LP] + a + [RP]) == Parens(Sent(d, a))
  {
    EmitParens(d, a);
    EmitAt(d, a);
    PrintedGroup(Emit(d, a));
  }

  lemma Regrouped(t: seq<Token>, a: seq<Token>, b: seq<Token>, c: seq<Token>)
    ensures t + (a + b + c) == t + a + b + c
  {
  }

  // ---------------------------------------------------------------- conditions on one column

  lemma SentCompare(d: Dialect, c: string, op: CmpOp, sign: string, v: Value, start: nat)
    requires OpText(op) == sign
    ensures var ts := CompareFrag(c, op, v, start).toks; Edged(ts) && Sent(d, ts) == Spaced([c, sign, Hole(d, start + 1)])
  {
    var ts := [Ident(c), Op(op), Ph(start + 1)];
    ReadsWords(d, ts);
    assert WordsOf(d, ts) == [c, sign, Hole(d, start + 1)];
  }

  lemma SentNull(d: Dialect, c: string, isNull: bool, start: nat)
    ensures var ts := NullFrag(c, isNull, start).toks;
            Edged(ts) && Sent(d, ts) == Spaced(if isNull then [c, "IS", "NULL"] else [c, "IS", "NOT", "NULL"])
  {
    var ts := NullFrag(c, isNull, start).toks;
    ReadsWords(d, ts);
    assert WordsOf(d, ts) == if isNull then [c, "IS", "NULL"] else [c, "IS", "NOT", "NULL"];
  }

  lemma SentEmpty(d: Dialect, c: string, op: CmpOp)
    ensures var ts := [Ident(c), Op(op), Lit(Str(""))]; Edged(ts) && Sent(d, ts) == Spaced([c, OpText(op), "''"])
  {
    var ts := [Ident(c), Op(op), Lit(Str(""))];
    ReadsWords(d, ts);
    assert WordsOf(d, ts) == [c, OpText(op), "''"];
  }

  lemma HolesAppend(d: Dialect, start: nat, n: nat)
    ensures Holes(d, start, n + 1) == Holes(d, start, n) + [Hole(d, start + n + 1)]
  {
  }

  lemma OneMoreHole(d: Dialect, front: seq<Token>, parts: seq<string>, n: nat, all: seq<Token>, texts: seq<string>)
    requires Edged(front) && parts != [] && Sent(d, front) == Joined(parts, ", ")
    requires all == front + [Comma, Ph(n)] && texts == parts + [Hole(d, n)]
    ensures Edged(all) && Sent(d, all) == Joined(texts, ", ")
  {
    SentOne(d, Ph(n));
    Listing(d, front, parts, [Ph(n)], Hole(d, n));
    assert all == front + [Comma] + [Ph(n)];
  }

  lemma FirstHole(d: Dialect, start: nat)
    ensures Edged(Holders(start, 1)) && Sent(d, Holders(start, 1)) == Joined(Holes(d, start, 1), ", ")
  {
    SentOne(d, Ph(start + 1));
    assert Holes(d, start, 1) == [Hole(d, start + 1)];
    JoinedOne(Hole(d, start + 1), ", ");
  }

  lemma LastHolder(start: nat, n: nat)
    requires n > 1
    ensures Holders(start, n) == Holders(start, n - 1) + [Comma, Ph(start + n)]
  {
  }

  lemma {:induction false} SentHolders(d: Dialect, start: nat, n: nat)
    requires n > 0
    ensures Edged(Holders(start, n)) && Sent(d, Holders(start, n)) == Joined(Holes(d, start, n), ", ")
  {
    if n == 1 {
      FirstHole(d, start);
    } else {
      var front, parts := Holders(start, n - 1), Holes(d, start, n - 1);
      SentHolders(d, start, n - 1);
      LastHolder(start, n);
      HolesAppend(d, start, n - 1);
      OneMoreHole(d, front, parts, start + n, Holders(start, n), Holes(d, start, n));
    }
  }

  lemma ReadsEnclosed(d: Dialect, ts: seq<Token>, words: seq<string>, inner: seq<Token>, text: string)
    requires ts != [] && Reads(d, ts, words) && inner != [] && Sent(d, inner) == text
    ensures Reads(d, ts + [LP] + inner + [RP], words + [Parens(text)])
  {
    SentParens(d, inner);
    Follows(d, ts, words, [LP] + inner + [RP], [Parens(text)]);
    Regrouped(ts, [LP], inner, [RP]);
  }

  lemma ReadsHolders(d: Dialect, ts: seq<Token>, words: seq<string>, start: nat, n: nat)
    requires ts != [] && Reads(d, ts, words) && n > 0
    ensures Reads(d, ts + [LP] + Holders(start, n) + [RP], words + [Parens(Joined(Holes(d, start, n), ", "))])
  {
    SentHolders(d, start, n);
    ReadsEnclosed(d, ts, words, Holders(start, n), Joined(Holes(d, start, n), ", "));
  }

  lemma SentIn(d: Dialect, c: string, vs: seq<Value>, negated: bool, start: nat)
    requires vs != []
    ensures InFrag(c, List(vs), negated, start).Ok?
    ensures var list := Parens(Joined(Holes(d, start, |vs|), ", "));
            Reads(d, InFrag(c, List(vs), negated, start).value.toks, if negated then [c, "NOT", "IN", list] else [c, "IN", list])
  {
    var list := Parens(Joined(Holes(d, start, |vs|), ", "));
    var ts := [Ident(c)] + if negated then [Kw(NOT), Kw(IN)] else [Kw(IN)];
    var words := if negated then [c, "NOT", "IN"] else [c, "IN"];
    ReadsWords(d, ts);
    assert WordsOf(d, ts) == words;
    ReadsHolders(d, ts, words, start, |vs|);
    assert words + [list] == if negated then [c, "NOT", "IN", list] else [c, "IN", list];
  }

  // What goes out for a filter: text and arguments.
  function Sends(d: Dialect, es: seq<Entry>, start: nat): Result<(string, seq<Value>)> {
    var f :- CompileWhere(es, start);
    Ok((Sent(d, f.toks), f.args))
  }

  lemma SendsOperator(d: Dialect, key: string, c: string, k: string, w: string, v: Value, start: nat)
    requires NamesColumn(key, c) && Word(w) && Spells(k, w) && OpOfWord(w) != NoOperator
    ensures OpOf(k) == OpOfWord(w)
    ensures var r := CompileOperator(c, Entry(k, v), start);
            r.Ok? && r.value.toks != [] ==> Sends(d, Condition(key, k, v), start) == Ok((Sent(d, r.value.toks), r.value.args))
  {
    SpelledOperator(k, w);
    OneOperatorCompiled(key, c, k, v, start);
  }

  lemma SendsCompare(d: Dialect, key: string, c: string, k: string, w: string, op: CmpOp, sign: string, v: Value, u: Value, start: nat)
    requires NamesColumn(key, c) && Word(w) && Spells(k, w) && OpOfWord(w) != NoOperator && OpText(op) == sign
    requires CompileOperator(c, Entry(k, v), start) == Ok(CompareFrag(c, op, u, start))
    ensures Sends(d, Condition(key, k, v), start) == Ok((Spaced([c, sign, Hole(d, start + 1)]), [u]))
  {
    SendsOperator(d, key, c, k, w, v, start);
    SentCompare(d, c, op, sign, u, start);
  }

  lemma CompareText(d: Dialect, key: string, c: string, k: string, w: string, op: CmpOp, sign: string, v: Value, start: nat)
    requires NamesColumn(key, c) && Word(w) && Spells(k, w) && OpOfWord(w) == Order(op) && OpText(op) == sign
    ensures Sends(d, Condition(key, k, v), start) == Ok((Spaced([c, sign, Hole(d, start + 1)]), [v]))
  {
    SpelledOperator(k, w);
    SendsCompare(d, key, c, k, w, op, sign, v, v, start);
  }

  lemma OrderSigns()
    ensures OpText(Lt) == "<" && OpText(Le) == "<=" && OpText(Gt) == ">" && OpText(Ge) == ">="
  {
  }

  /** The text of a comparison. */
  lemma OrderText(d: Dialect, key: string, c: string, k: string, v: Value, start: nat)
    requires NamesColumn(key, c)
    ensures var r, hole := Sends(d, Condition(key, k, v), start), Hole(d, start + 1);
            && (Spells(k, "lt") ==> r == Ok((Spaced([c, "<", hole]), [v])))
            && (Spells(k, "lte") ==> r == Ok((Spaced([c, "<=", hole]), [v])))
            && (Spells(k, "gt") ==> r == Ok((Spaced([c, ">", hole]), [v])))
            && (Spells(k, "gte") ==> r == Ok((Spaced([c, ">=", hole]), [v])))
  {
    OrderWords();
    OrderSigns();
    if Spells(k, "lt") { CompareText(d, key, c, k, "lt", Lt, "<", v, start); }
    if Spells(k, "lte") { CompareText(d, key, c, k, "lte", Le, "<=", v, start); }
    if Spells(k, "gt") { CompareText(d, key, c, k, "gt", Gt, ">", v, start); }
    if Spells(k, "gte") { CompareText(d, key, c, k, "gte", Ge, ">=", v, start); }
  }

  lemma EqualityWords()
    ensures Word("equals") && Word("is") && OpOfWord("equals") == OpOfWord("is") == Equals
    ensures Word("not") && Word("isnot") && OpOfWord("not") == OpOfWord("isnot") == Negate
  {
  }

  /** The text of an equality or of a NULL test. */
  lemma EqualityText(d: Dialect, key: string, c: string, k: string, v: Value, start: nat)
    requires NamesColumn(key, c) && (Spells(k, "equals") || Spells(k, "is"))
    ensures Sends(d, Condition(key, k, v), start) ==
            Ok(if v == Null then (Spaced([c, "IS", "NULL"]), []) else (Spaced([c, "=", Hole(d, start + 1)]), [v]))
  {
    EqualityWords();
    SendsOperator(d, key, c, k, if Spells(k, "is") then "is" else "equals", v, start);
    SentNull(d, c, true, start);
    SentCompare(d, c, Eq, "=", v, start);
  }

  /** The text of an inequality or of the opposite NULL test. */
  lemma InequalityText(d: Dialect, key: string, c: string, k: string, v: Value, start: nat)
    requires NamesColumn(key, c) && (Spells(k, "not") || Spells(k, "isnot")) && (v.Obj? ==> v.entries == [])
    ensures Sends(d, Condition(key, k, v), start) ==
            Ok(if v == Null then (Spaced([c, "IS", "NOT", "NULL"]), []) else (Spaced([c, "<>", Hole(d, start + 1)]), [v]))
  {
    EqualityWords();
    SendsOperator(d, key, c, k, if Spells(k, "not") then "not" else "isnot", v, start);
    SentNull(d, c, false, start);
    SentCompare(d, c, Ne, "<>", v, start);
  }

  /** The text of a membership test. */
  lemma ListText(d: Dialect, key: string, c: string, k: string, vs: seq<Value>, start: nat)
    requires NamesColumn(key, c) && vs != []
    ensures var r, list := Sends(d, Condition(key, k, List(vs)), start), Parens(Joined(Holes(d, start, |vs|), ", "));
            && (Spells(k, "in") ==> r == Ok((Spaced([c, "IN", list]), vs)))
            && (Spells(k, "notin") ==> r == Ok((Spaced([c, "NOT", "IN", list]), vs)))
  {
    ListWords();
    SentIn(d, c, vs, false, start);
    SentIn(d, c, vs, true, start);
    if Spells(k, "in") { SendsOperator(d, key, c, k, "in", List(vs), start); }
    if Spells(k, "notin") { SendsOperator(d, key, c, k, "notin", List(vs), start); }
  }

  /** The text of `isSet` and `isEmpty`. */
  lemma PresenceText(d: Dialect, key: string, c: string, k: string, b: bool, start: nat)
    requires NamesColumn(key, c)
    ensures var r := Sends(d, Condition(key, k, Bool(b)), start);
            && (Spells(k, "isset") ==> r == Ok((Spaced(if b then [c, "IS", "NOT", "NULL"] else [c, "IS", "NULL"]), [])))
            && (Spells(k, "isempty") ==> r == Ok((Spaced([c, if b then "=" else "<>", "''"]), [])))
  {
    PresenceWords();
    SentNull(d, c, !b, start);
    SentEmpty(d, c, if b then Eq else Ne);
    if Spells(k, "isset") { SendsOperator(d, key, c, k, "isset", Bool(b), start); }
    if Spells(k, "isempty") { SendsOperator(d, key, c, k, "isempty", Bool(b), start); }
  }

  lemma LikeCompiled(c: string, k: string, t: TextOp, s: string, pattern: string, start: nat)
    requires OpOf(k) == Text(t) && LikePattern(t, s) == pattern
    ensures CompileOperator(c, Entry(k, Str(s)), start) == Ok(CompareFrag(c, Like, Str(pattern), start))
  {
  }

  lemma LikeOperator(d: Dialect, key: string, c: string, k: string, w: string, t: TextOp, s: string, pattern: string, start: nat)
    requires NamesColumn(key, c) && Word(w) && Spells(k, w) && OpOfWord(w) == Text(t) && LikePattern(t, s) == pattern
    ensures Sends(d, Condition(key, k, Str(s)), start) == Ok((Spaced([c, "LIKE", Hole(d, start + 1)]), [Str(pattern)]))
  {
    SpelledOperator(k, w);
    LikeCompiled(c, k, t, s, pattern, start);
    SendsCompare(d, key, c, k, w, Like, "LIKE", Str(s), Str(pattern), start);
  }

  /** The text and the pattern of the text operators. */
  lemma LikeText(d: Dialect, key: string, c: string, k: string, s: string, start: nat)
    requires NamesColumn(key, c)
    ensures var r, text := Sends(d, Condition(key, k, Str(s)), start), Spaced([c, "LIKE", Hole(d, start + 1)]);
            && (Spells(k, "contains") ==> r == Ok((text, [Str("%" + s + "%")])))
            && (Spells(k, "startswith") ==> r == Ok((text, [Str(s + "%")])))
            && (Spells(k, "endswith") ==> r == Ok((text, [Str("%" + s)])))
  {
    TextWords();
    if Spells(k, "contains") { LikeOperator(d, key, c, k, "contains", Contains, s, "%" + s + "%", start); }
    if Spells(k, "startswith") { LikeOperator(d, key, c, k, "startswith", StartsWith, s, s + "%", start); }
    if Spells(k, "endswith") { LikeOperator(d, key, c, k, "endswith", EndsWith, s, "%" + s, start); }
  }

  /** A value without operators goes out as an equality or a NULL test. */
  lemma PlainText(d: Dialect, key: string, c: string, v: Value, start: nat)
    requires NamesColumn(key, c)
    requires v.Obj? ==> forall i :: 0 <= i < |v.entries| ==> !IsOperatorKey(v.entries[i].key)
    ensures Sends(d, [Entry(key, v)], start) ==
            Ok(if v == Null then (Spaced([c, "IS", "NULL"]), []) else (Spaced([c, "=", Hole(d, start + 1)]), [v]))
  {
    ConnectiveKeys(key);
    if v.Obj? {
      forall i | 0 <= i < |v.entries| ensures OpOf(v.entries[i].key) == NoOperator {
        OperatorKeys(v.entries[i].key);
      }
    }
    OneCompiled(Entry(key, v), start);
    SentNull(d, c, true, start);
    SentCompare(d, c, Eq, "=", v, start);
  }

  // ---------------------------------------------------------------- conditions put together

  ghost predicate AllEdged(parts: seq<seq<Token>>) {
    forall i :: 0 <= i < |parts| ==> Edged(parts[i])
  }

  function SentAll(d: Dialect, parts: seq<seq<Token>>): seq<string> {
    seq(|parts|, i requires 0 <= i < |parts| => Sent(d, parts[i]))
  }

  lemma KeywordForm(a: string, k: string, b: string)
    ensures a + " " + k + " " + b == a + (" " + k + " ") + b
  {
  }

  lemma Connected(d: Dialect, front: seq<Token>, texts: seq<string>, sep: Keyword, last: seq<Token>)
    requires Edged(front) && Edged(last) && texts != [] && Sent(d, front) == Joined(texts, " " + KeywordText(sep) + " ")
    ensures Edged(front + [Kw(sep)] + last)
    ensures Sent(d, front + [Kw(sep)] + last) == Joined(texts + [Sent(d, last)], " " + KeywordText(sep) + " ")
  {
    SentOne(d, Kw(sep));
    SentConcat(d, front, [Kw(sep)]);
    SentConcat(d, front + [Kw(sep)], last);
    KeywordForm(Sent(d, front), KeywordText(sep), Sent(d, last));
    JoinedAppend(texts, Sent(d, last), " " + KeywordText(sep) + " ");
  }

  lemma SentAllAppend(d: Dialect, parts: seq<seq<Token>>, part: seq<Token>)
    ensures SentAll(d, parts + [part]) == SentAll(d, parts) + [Sent(d, part)]
  {
  }

  lemma {:induction false} SentJoin(d: Dialect, parts: seq<seq<Token>>, sep: Keyword)
    requires AllEdged(parts) && parts != []
    ensures Edged(Where.Join(parts, sep)) && Sent(d, Where.Join(parts, sep)) == Joined(SentAll(d, parts), " " + KeywordText(sep) + " ")
  {
    var init, last := parts[..|parts| - 1], parts[|parts| - 1];
    assert parts == init + [last] && Edged(last);
    SentAllAppend(d, init, last);
    if init != [] {
      SentJoin(d, init, sep);
      Connected(d, Where.Join(init, sep), SentAll(d, init), sep, last);
    } else {
      assert SentAll(d, []) == [];
      JoinedOne(Sent(d, last), " " + KeywordText(sep) + " ");
    }
  }

  predicate EdgedOrNone(f: Frag) {
    f.toks == [] || Edged(f.toks)
  }

  lemma {:induction false} JoinEdged(parts: seq<seq<Token>>, sep: Keyword)
    requires AllEdged(parts)
    ensures parts != [] ==> Edged(Where.Join(parts, sep))
  {
    if parts != [] {
      SentJoin(Numbered, parts, sep);
    }
  }

  lemma {:induction false} WhereEdged(es: seq<Entry>, start: nat)
    requires WhereParts(es, start).Ok?
    ensures AllEdged(WhereParts(es, start).value.parts)
    decreases es
  {
    if es != [] {
      var init, last := es[..|es| - 1], es[|es| - 1];
      WhereEdged(init, start);
      EntryEdged(last, WhereParts(init, start).value.next);
    }
  }

  lemma {:induction false} EntryEdged(e: Entry, start: nat)
    requires CompileEntry(e, start).Ok?
    ensures EdgedOrNone(CompileEntry(e, start).value)
    decreases e
  {
    var v := e.val;
    match KindOf(e.key)
    case Column => FieldEdged(e.key, v, start);
    case NotKey => ConditionEdged(v, start);
    case _ =>
      if v.Obj? {
        ConditionEdged(v, start);
      } else if v.List? {
        ItemsEdged(v.items, start);
      }
  }

  lemma {:induction false} ConditionEdged(v: Value, start: nat)
    requires CompileCondition(v, start).Ok?
    ensures EdgedOrNone(CompileCondition(v, start).value)
    decreases v
  {
    WhereEdged(v.entries, start);
    JoinEdged(WhereParts(v.entries, start).value.parts, AND);
  }

  lemma {:induction false} ItemsEdged(items: seq<Value>, start: nat)
    requires ConditionParts(items, start).Ok?
    ensures AllEdged(ConditionParts(items, start).value.parts)
    decreases items
  {
    if items != [] {
      var init, last := items[..|items| - 1], items[|items| - 1];
      ItemsEdged(init, start);
      ConditionEdged(last, ConditionParts(init, start).value.next);
    }
  }

  lemma {:induction false} FieldEdged(column: string, v: Value, start: nat)
    requires CompileField(column, v, start).Ok?
    ensures EdgedOrNone(CompileField(column, v, start).value)
    decreases v
  {
    if IsOperatorObject(v) {
      OperatorsEdged(TrimSpace(column), v.entries, start);
      JoinEdged(OperatorParts(TrimSpace(column), v.entries, start).value.parts, AND);
    }
  }

  lemma {:induction false} OperatorsEdged(c: string, ops: seq<Entry>, start: nat)
    requires OperatorParts(c, ops, start).Ok?
    ensures AllEdged(OperatorParts(c, ops, start).value.parts) && |OperatorParts(c, ops, start).value.parts| == |ops|
    decreases ops
  {
    if ops != [] {
      var init, last := ops[..|ops| - 1], ops[|ops| - 1];
      OperatorsEdged(c, init, start);
      OperatorEdged(c, last, OperatorParts(c, init, start).value.next);
    }
  }

  lemma {:induction false} OperatorEdged(c: string, e: Entry, start: nat)
    requires CompileOperator(c, e, start).Ok?
    ensures Edged(CompileOperator(c, e, start).value.toks)
    decreases e
  {
    var v := e.val;
    if OpOf(e.key).Negate? && v.Obj? && v.entries != [] {
      assert CompileNotField(c, v, start).Ok? && CompileOperators(c, v.entries, start).Ok?;
      OperatorsEdged(c, v.entries, start);
      JoinEdged(OperatorParts(c, v.entries, start).value.parts, AND);
    }
  }

  lemma SendsEntry(d: Dialect, e: Entry, start: nat, f: Frag)
    requires CompileEntry(e, start) == Ok(f)
    ensures Sends(d, [e], start) == Ok(if f.toks == [] then ("", []) else (Sent(d, f.toks), f.args))
  {
    OneCompiled(e, start);
    assert Sent(d, []) == "";
  }

  /** The entries of a filter, and the operators of a column, are joined by ` AND `. */
  lemma EntriesText(d: Dialect, es: seq<Entry>, start: nat)
    requires WhereParts(es, start).Ok?
    ensures var p := WhereParts(es, start).value;
            Sends(d, es, start) == Ok((Joined(SentAll(d, p.parts), " AND "), p.args))
  {
    var p := WhereParts(es, start).value;
    WhereEdged(es, start);
    if p.parts != [] {
      SentJoin(d, p.parts, AND);
      AndForm();
    } else {
      assert Sent(d, []) == "" && SentAll(d, []) == [];
    }
  }

  lemma AndForm()
    ensures " " + KeywordText(AND) + " " == " AND " && " " + KeywordText(OR) + " " == " OR "
  {
  }

  lemma GroupText(d: Dialect, parts: seq<seq<Token>>, sep: Keyword)
    requires AllEdged(parts) && parts != []
    ensures Sent(d, [LP] + Where.Join(parts, sep) + [RP]) == Parens(Joined(SentAll(d, parts), " " + KeywordText(sep) + " "))
  {
    SentJoin(d, parts, sep);
    SentParens(d, Where.Join(parts, sep));
  }

  /** A list of conditions under AND or OR is joined by that word inside one pair of parentheses. */
  lemma ConnectedText(d: Dialect, k: string, items: seq<Value>, start: nat)
    requires ConditionParts(items, start).Ok?
    ensures var p, r := ConditionParts(items, start).value, Sends(d, [Entry(k, List(items))], start);
            && (Connects(k) && !Spells(k, "not") && p.parts == [] ==> r == Ok(("", [])))
            && (Spells(k, "and") && p.parts != [] ==> r == Ok((Parens(Joined(SentAll(d, p.parts), " AND ")), p.args)))
            && (Spells(k, "or") && p.parts != [] ==> r == Ok((Parens(Joined(SentAll(d, p.parts), " OR ")), p.args)))
  {
    var p, e := ConditionParts(items, start).value, Entry(k, List(items));
    ConnectiveKeys(k);
    ItemsEdged(items, start);
    AndForm();
    if KindOf(k) == AndKey {
      SendsEntry(d, e, start, p.Parenthesised(AND));
      if p.parts != [] { GroupText(d, p.parts, AND); }
    } else if KindOf(k) == OrKey {
      SendsEntry(d, e, start, p.Parenthesised(OR));
      if p.parts != [] { GroupText(d, p.parts, OR); }
    }
  }

  lemma SentNot(d: Dialect, ts: seq<Token>)
    requires ts != []
    ensures Sent(d, [Kw(NOT), LP] + ts + [RP]) == Spaced(["NOT", Parens(Sent(d, ts))])
  {
    ReadsWords(d, [Kw(NOT)]);
    assert WordsOf(d, [Kw(NOT)]) == ["NOT"];
    ReadsEnclosed(d, [Kw(NOT)], ["NOT"], ts, Sent(d, ts));
    assert [Kw(NOT)] + [LP] + ts + [RP] == [Kw(NOT), LP] + ts + [RP];
    assert ["NOT"] + [Parens(Sent(d, ts))] == ["NOT", Parens(Sent(d, ts))];
  }

  /** A negated condition goes out in parentheses after NOT, an empty one not at all. */
  lemma NegatedText(d: Dialect, k: string, es: seq<Entry>, start: nat)
    requires Spells(k, "not") && CompileWhere(es, start).Ok?
    ensures var f := CompileWhere(es, start).value;
            Sends(d, [Entry(k, Obj(es))], start) ==
            Ok(if f.toks == [] then ("", []) else (Spaced(["NOT", Parens(Sent(d, f.toks))]), f.args))
  {
    var f := CompileWhere(es, start).value;
    ConnectiveKeys(k);
    assert CompileCondition(Obj(es), start) == Ok(f);
    var g := if f.toks == [] then f else Frag([Kw(NOT), LP] + f.toks + [RP], f.args, f.next);
    assert CompileNot(Obj(es), start) == Ok(g);
    SendsEntry(d, Entry(k, Obj(es)), start, g);
    if f.toks != [] {
      SentNot(d, f.toks);
    }
  }

  /** The operators of a column are joined by ` AND `, and `not` puts the operators of a map in
      parentheses after NOT. */
  lemma OperatorsText(d: Dialect, key: string, c: string, ops: seq<Entry>, start: nat, i: nat)
    requires NamesColumn(key, c) && i < |ops| && IsOperatorKey(ops[i].key) && OperatorParts(c, ops, start).Ok?
    ensures var p, text := OperatorParts(c, ops, start).value, Joined(SentAll(d, OperatorParts(c, ops, start).value.parts), " AND ");
            && |p.parts| == |ops|
            && Sends(d, [Entry(key, Obj(ops))], start) == Ok((text, p.args))
            && forall k :: Spells(k, "not") || Spells(k, "isnot") ==>
                 Sends(d, Condition(key, k, Obj(ops)), start) == Ok((Spaced(["NOT", Parens(text)]), p.args))
  {
    var p := OperatorParts(c, ops, start).value;
    var f := p.Joined(AND);
    ConnectiveKeys(key);
    OperatorKeys(ops[i].key);
    OperatorsEdged(c, ops, start);
    SentJoin(d, p.parts, AND);
    AndForm();
    SentNot(d, f.toks);
    SendsEntry(d, Entry(key, Obj(ops)), start, f);
    EqualityWords();
    forall k | Spells(k, "not") || Spells(k, "isnot")
      ensures Sends(d, Condition(key, k, Obj(ops)), start) == Ok((Spaced(["NOT", Parens(Sent(d, f.toks))]), p.args))
    {
      NegatedOperators(d, key, c, k, ops, start, f);
    }
  }

  lemma NegatedOperators(d: Dialect, key: string, c: string, k: string, ops: seq<Entry>, start: nat, f: Frag)
    requires NamesColumn(key, c) && (Spells(k, "not") || Spells(k, "isnot"))
    requires ops != [] && CompileOperators(c, ops, start) == Ok(f)
    ensures Sends(d, Condition(key, k, Obj(ops)), start) == Ok((Sent(d, [Kw(NOT), LP] + f.toks + [RP]), f.args))
  {
    EqualityWords();
    SendsOperator(d, key, c, k, if Spells(k, "not") then "not" else "isnot", Obj(ops), start);
  }

  // ---------------------------------------------------------------- whole statements

  lemma {:induction false} IdentListAppend(cols: seq<string>, c: string)
    requires cols != []
    ensures IdentList(cols + [c]) == IdentList(cols) + [Comma, Ident(c)]
  {
    assert (cols + [c])[1..] == cols[1..] + [c];
    if |cols| > 1 {
      IdentListAppend(cols[1..], c);
    } else {
      assert [c][1..] == [];
    }
  }

  lemma OneMoreColumn(d: Dialect, front: seq<Token>, parts: seq<string>, c: string)
    requires Edged(front) && parts != [] && Sent(d, front) == Joined(parts, ", ")
    ensures Edged(front + [Comma, Ident(c)]) && Sent(d, front + [Comma, Ident(c)]) == Joined(parts + [c], ", ")
  {
    SentOne(d, Ident(c));
    Listing(d, front, parts, [Ident(c)], c);
    assert front + [Comma, Ident(c)] == front + [Comma] + [Ident(c)];
  }

  lemma {:induction false} SentIdents(d: Dialect, cols: seq<string>)
    requires cols != []
    ensures Edged(IdentList(cols)) && Sent(d, IdentList(cols)) == Joined(cols, ", ")
  {
    var init, last := cols[..|cols| - 1], cols[|cols| - 1];
    assert cols == init + [last];
    if init == [] {
      SentOne(d, Ident(last));
      JoinedOne(last, ", ");
    } else {
      SentIdents(d, init);
      IdentListAppend(init, last);
      OneMoreColumn(d, IdentList(init), init, last);
    }
  }

  function ColumnsText(cols: Columns): string {
    if cols.None? then "*" else Joined(cols.value, ", ")
  }

  lemma SentColumnTokens(d: Dialect, columns: seq<string>)
    requires SelectColumns(columns).Ok?
    ensures var cols := SelectColumns(columns).value; Reads(d, ColumnTokens(cols), [ColumnsText(cols)])
  {
    var cols := SelectColumns(columns).value;
    if cols.None? {
      SentOne(d, Star);
    } else {
      SentIdents(d, cols.value);
    }
  }

  function ReturningWords(returning: Option<seq<string>>): seq<string>
    requires ReturningTokens(returning).Ok?
  {
    if returning.None? then [] else ["RETURNING", ColumnsText(SelectColumns(returning.value).value)]
  }

  lemma SentReturning(d: Dialect, returning: Option<seq<string>>)
    requires ReturningTokens(returning).Ok?
    ensures Reads(d, ReturningTokens(returning).value, ReturningWords(returning))
  {
    if returning.Some? {
      SentOne(d, Kw(RETURNING));
      SentColumnTokens(d, returning.value);
      var cols := SelectColumns(returning.value).value;
      Follows(d, [Kw(RETURNING)], ["RETURNING"], ColumnTokens(cols), [ColumnsText(cols)]);
      assert ["RETURNING"] + [ColumnsText(cols)] == ReturningWords(returning);
    }
  }

  function WhereWords(d: Dialect, where: seq<Entry>, start: nat): seq<string>
    requires CompileWhere(where, start).Ok?
  {
    var ts := CompileWhere(where, start).value.toks;
    if ts == [] then [] else ["WHERE", Sent(d, ts)]
  }

  lemma SentCondition(d: Dialect, ts: seq<Token>)
    requires Edged(ts)
    ensures Reads(d, [Kw(WHERE)] + ts, ["WHERE", Sent(d, ts)])
  {
    SentOne(d, Kw(WHERE));
    WithText(d, [Kw(WHERE)], ["WHERE"], ts, Sent(d, ts));
    assert ["WHERE"] + [Sent(d, ts)] == ["WHERE", Sent(d, ts)];
  }

  lemma SentWhere(d: Dialect, where: seq<Entry>, start: nat)
    requires WhereClauseOf(where, start).Ok?
    ensures CompileWhere(where, start).Ok? && Reads(d, WhereClauseOf(where, start).value.toks, WhereWords(d, where, start))
  {
    var ts := CompileWhere(where, start).value.toks;
    WhereEdged(where, start);
    JoinEdged(WhereParts(where, start).value.parts, AND);
    if ts != [] {
      SentCondition(d, ts);
    }
  }

  lemma DeleteWords(d: Dialect, table: string)
    ensures Reads(d, [Kw(DELETE), Kw(FROM), Ident(table)], ["DELETE", "FROM", table])
  {
    ReadsWords(d, [Kw(DELETE), Kw(FROM), Ident(table)]);
    assert WordsOf(d, [Kw(DELETE), Kw(FROM), Ident(table)]) == ["DELETE", "FROM", table];
  }

  /** The text of a DELETE. */
  lemma DeleteText(d: Dialect, name: string, where: seq<Entry>)
    requires DeleteOf(name, where).Ok?
    ensures CompileWhere(where, 0).Ok?
    ensures TextOf(d, DeleteOf(name, where).value) == Spaced(["DELETE", "FROM", TrimSpace(name)] + WhereWords(d, where, 0))
  {
    var head, words := [Kw(DELETE), Kw(FROM), Ident(TrimSpace(name))], ["DELETE", "FROM", TrimSpace(name)];
    SentWhere(d, where, 0);
    DeleteWords(d, TrimSpace(name));
    Follows(d, head, words, WhereClauseOf(where, 0).value.toks, WhereWords(d, where, 0));
  }

  lemma InsertWords(d: Dialect, table: string)
    ensures Reads(d, [Kw(INSERT), Kw(INTO), Ident(table)], ["INSERT", "INTO", table])
  {
    ReadsWords(d, [Kw(INSERT), Kw(INTO), Ident(table)]);
    assert WordsOf(d, [Kw(INSERT), Kw(INTO), Ident(table)]) == ["INSERT", "INTO", table];
  }

  // The same from its first three tokens on.
  lemma InsertRest(d: Dialect, ts: seq<Token>, words: seq<string>, cols: seq<string>, returning: Option<seq<string>>)
    requires ts != [] && Reads(d, ts, words) && cols != [] && ReturningTokens(returning).Ok?
    ensures Reads(d, ts + [LP] + IdentList(cols) + [RP, Kw(VALUES), LP] + Holders(0, |cols|) + [RP] + ReturningTokens(returning).value,
                  words + [Parens(Joined(cols, ", "))] + ["VALUES", Parens(Joined(Holes(d, 0, |cols|), ", "))] + ReturningWords(returning))
  {
    SentIdents(d, cols);
    ReadsEnclosed(d, ts, words, IdentList(cols), Joined(cols, ", "));
    InsertTail(d, ts + [LP] + IdentList(cols) + [RP], words + [Parens(Joined(cols, ", "))], |cols|, returning);
    InsertTokens(ts, IdentList(cols), Holders(0, |cols|), ReturningTokens(returning).value);
  }

  /** The text of an INSERT. */
  lemma InsertText(d: Dialect, name: string, values: seq<Entry>, returning: Option<seq<string>>)
    requires InsertOf(name, values, returning).Ok?
    ensures ReturningTokens(returning).Ok?
    ensures var cols := NormalizedValues(values).value.0;
            TextOf(d, InsertOf(name, values, returning).value) ==
            Spaced(["INSERT", "INTO", TrimSpace(name)] + [Parens(Joined(cols, ", "))]
                   + ["VALUES", Parens(Joined(Holes(d, 0, |cols|), ", "))] + ReturningWords(returning))
  {
    var cols, head := NormalizedValues(values).value.0, [Kw(INSERT), Kw(INTO), Ident(TrimSpace(name))];
    ValidValuesLengths(values);
    InsertWords(d, TrimSpace(name));
    InsertRest(d, head, ["INSERT", "INTO", TrimSpace(name)], cols, returning);
    assert head + [LP] == [Kw(INSERT), Kw(INTO), Ident(TrimSpace(name)), LP];
  }

  lemma InsertTail(d: Dialect, ts: seq<Token>, words: seq<string>, n: nat, returning: Option<seq<string>>)
    requires ts != [] && Reads(d, ts, words) && n > 0 && ReturningTokens(returning).Ok?
    ensures Reads(d, ts + [Kw(VALUES)] + [LP] + Holders(0, n) + [RP] + ReturningTokens(returning).value,
                  words + ["VALUES", Parens(Joined(Holes(d, 0, n), ", "))] + ReturningWords(returning))
  {
    var holes := Parens(Joined(Holes(d, 0, n), ", "));
    SentOne(d, Kw(VALUES));
    Follows(d, ts, words, [Kw(VALUES)], ["VALUES"]);
    ReadsHolders(d, ts + [Kw(VALUES)], words + ["VALUES"], 0, n);
    assert words + ["VALUES"] + [holes] == words + ["VALUES", holes];
    SentReturning(d, returning);
    Follows(d, ts + [Kw(VALUES)] + [LP] + Holders(0, n) + [RP], words + ["VALUES", holes], ReturningTokens(returning).value, ReturningWords(returning));
  }

  lemma InsertTokens(head: seq<Token>, cols: seq<Token>, holders: seq<Token>, ret: seq<Token>)
    ensures head + [LP] + cols + [RP] + [Kw(VALUES)] + [LP] + holders + [RP] + ret ==
            (head + [LP]) + cols + [RP, Kw(VALUES), LP] + holders + [RP] + ret
  {
    assert [RP] + [Kw(VALUES)] + [LP] == [RP, Kw(VALUES), LP];
  }

  function Assignments(d: Dialect, cols: seq<string>, n: nat): seq<string>
    requires n <= |cols|
  {
    seq(n, i requires 0 <= i < n => Spaced([cols[i], "=", Hole(d, i + 1)]))
  }

  lemma {:induction false} SentSets(d: Dialect, cols: seq<string>, n: nat)
    requires 0 < n <= |cols|
    ensures Edged(SetTokens(cols, n)) && Sent(d, SetTokens(cols, n)) == Joined(Assignments(d, cols, n), ", ")
  {
    var part, text := [Ident(cols[n - 1]), Op(Eq), Ph(n)], Spaced([cols[n - 1], "=", Hole(d, n)]);
    SentCompare(d, cols[n - 1], Eq, "=", Null, n - 1);
    assert Assignments(d, cols, n) == Assignments(d, cols, n - 1) + [text];
    if n == 1 {
      JoinedOne(text, ", ");
    } else {
      SentSets(d, cols, n - 1);
      Listing(d, SetTokens(cols, n - 1), Assignments(d, cols, n - 1), part, text);
    }
  }

  lemma UpdateWords(d: Dialect, table: string)
    ensures Reads(d, [Kw(UPDATE), Ident(table), Kw(SET)], ["UPDATE", table, "SET"])
  {
    ReadsWords(d, [Kw(UPDATE), Ident(table), Kw(SET)]);
    assert WordsOf(d, [Kw(UPDATE), Ident(table), Kw(SET)]) == ["UPDATE", table, "SET"];
  }

  lemma UpdateRest(d: Dialect, ts: seq<Token>, words: seq<string>, cols: seq<string>, where: seq<Entry>, n: nat, returning: Option<seq<string>>)
    requires ts != [] && Reads(d, ts, words) && cols != []
    requires WhereClauseOf(where, n).Ok? && CompileWhere(where, n).Ok? && ReturningTokens(returning).Ok?
    ensures Reads(d, ts + SetTokens(cols, |cols|) + WhereClauseOf(where, n).value.toks + ReturningTokens(returning).value,
                  words + [Joined(Assignments(d, cols, |cols|), ", ")] + WhereWords(d, where, n) + ReturningWords(returning))
  {
    var text := Joined(Assignments(d, cols, |cols|), ", ");
    SentSets(d, cols, |cols|);
    WithText(d, ts, words, SetTokens(cols, |cols|), text);
    SentWhere(d, where, n);
    Follows(d, ts + SetTokens(cols, |cols|), words + [text], WhereClauseOf(where, n).value.toks, WhereWords(d, where, n));
    SentReturning(d, returning);
    Follows(d, ts + SetTokens(cols, |cols|) + WhereClauseOf(where, n).value.toks, words + [text] + WhereWords(d, where, n),
            ReturningTokens(returning).value, ReturningWords(returning));
  }

  /** The text of an UPDATE. */
  lemma UpdateText(d: Dialect, name: string, where: seq<Entry>, patch: seq<Entry>, returning: Option<seq<string>>)
    requires UpdateOf(name, where, patch, returning).Ok?
    ensures CompileWhere(where, |patch|).Ok? && ReturningTokens(returning).Ok?
    ensures var cols := NormalizedValues(patch).value.0;
            TextOf(d, UpdateOf(name, where, patch, returning).value) ==
            Spaced(["UPDATE", TrimSpace(name), "SET"] + [Joined(Assignments(d, cols, |cols|), ", ")]
                   + WhereWords(d, where, |patch|) + ReturningWords(returning))
  {
    var cols := NormalizedValues(patch).value.0;
    ValidValuesLengths(patch);
    UpdateWords(d, TrimSpace(name));
    UpdateRest(d, [Kw(UPDATE), Ident(TrimSpace(name)), Kw(SET)], ["UPDATE", TrimSpace(name), "SET"], cols, where, |patch|, returning);
  }

  function DirectionText(o: OrderBy): string {
    Spaced([TrimSpace(o.column), if o.desc then "DESC" else "ASC"])
  }

  function OrderTexts(order: seq<OrderBy>): seq<string> {
    seq(|order|, i requires 0 <= i < |order| => DirectionText(order[i]))
  }

  lemma SentDirection(d: Dialect, o: OrderBy)
    ensures var part := [Ident(TrimSpace(o.column)), Kw(if o.desc then DESC else ASC)];
            Edged(part) && Sent(d, part) == DirectionText(o)
  {
    var part := [Ident(TrimSpace(o.column)), Kw(if o.desc then DESC else ASC)];
    ReadsWords(d, part);
    assert WordsOf(d, part) == [TrimSpace(o.column), if o.desc then "DESC" else "ASC"];
  }

  lemma OrderTextsAppend(order: seq<OrderBy>, o: OrderBy)
    ensures OrderTexts(order + [o]) == OrderTexts(order) + [DirectionText(o)]
  {
  }

  lemma OneMoreOrder(d: Dialect, front: seq<Token>, order: seq<OrderBy>, o: OrderBy)
    requires Edged(front) && order != [] && Sent(d, front) == Joined(OrderTexts(order), ", ")
    ensures var part := [Ident(TrimSpace(o.column)), Kw(if o.desc then DESC else ASC)];
            Edged(front + [Comma] + part) && Sent(d, front + [Comma] + part) == Joined(OrderTexts(order + [o]), ", ")
  {
    var part := [Ident(TrimSpace(o.column)), Kw(if o.desc then DESC else ASC)];
    SentDirection(d, o);
    OrderTextsAppend(order, o);
    Listing(d, front, OrderTexts(order), part, DirectionText(o));
  }

  lemma {:induction false} SentOrder(d: Dialect, order: seq<OrderBy>)
    requires OrderTokens(order).Ok? && order != []
    ensures Edged(OrderTokens(order).value) && Sent(d, OrderTokens(order).value) == Joined(OrderTexts(order), ", ")
  {
    var init, last := order[..|order| - 1], order[|order| - 1];
    var part := [Ident(TrimSpace(last.column)), Kw(if last.desc then DESC else ASC)];
    SentDirection(d, last);
    assert order == init + [last];
    if init == [] {
      assert OrderTokens([]) == Ok([]) && OrderTexts([]) == [];
      JoinedOne(DirectionText(last), ", ");
    } else {
      SentOrder(d, init);
      OneMoreOrder(d, OrderTokens(init).value, init, last);
    }
  }

  function OrderClauseWords(order: seq<OrderBy>): seq<string> {
    if order == [] then [] else ["ORDER", "BY", Joined(OrderTexts(order), ", ")]
  }

  lemma OrderPrefix(d: Dialect)
    ensures Reads(d, [Kw(ORDER), Kw(BY)], ["ORDER", "BY"])
  {
    ReadsWords(d, [Kw(ORDER), Kw(BY)]);
    assert WordsOf(d, [Kw(ORDER), Kw(BY)]) == ["ORDER", "BY"];
  }

  lemma SentOrderClause(d: Dialect, order: seq<OrderBy>)
    requires OrderClause(order).Ok?
    ensures Reads(d, OrderClause(order).value, OrderClauseWords(order))
  {
    if order != [] {
      var ts, text := OrderTokens(order).value, Joined(OrderTexts(order), ", ");
      SentOrder(d, order);
      OrderPrefix(d);
      Follows(d, [Kw(ORDER), Kw(BY)], ["ORDER", "BY"], ts, [text]);
      assert ["ORDER", "BY"] + [text] == ["ORDER", "BY", text];
    }
  }

  function LimitWords(d: Dialect, word: string, n: int, k: nat): seq<string> {
    if n > 0 then [word, Hole(d, k)] else []
  }

  function LimitArgs(n: int): seq<Value> {
    if n > 0 then [Num(n)] else []
  }

  lemma SentLimited(d: Dialect, q: Query, words: seq<string>, kw: Keyword, word: string, n: int)
    requires q.toks != [] && Reads(d, q.toks, words) && KeywordText(kw) == word
    ensures Limited(q, kw, n).toks != []
    ensures Reads(d, Limited(q, kw, n).toks, words + LimitWords(d, word, n, |q.args| + 1))
    ensures Limited(q, kw, n).args == q.args + LimitArgs(n)
  {
    if n > 0 {
      var tail := [Kw(kw), Ph(|q.args| + 1)];
      ReadsWords(d, tail);
      assert WordsOf(d, tail) == LimitWords(d, word, n, |q.args| + 1);
      Follows(d, q.toks, words, tail, WordsOf(d, tail));
    } else {
      assert words + [] == words && q.args + [] == q.args;
    }
  }

  // LIMIT and OFFSET, where they are positive, after n arguments.
  function WindowWords(d: Dialect, n: nat, limit: int, offset: int): seq<string> {
    LimitWords(d, "LIMIT", limit, n + 1) + LimitWords(d, "OFFSET", offset, n + if limit > 0 then 2 else 1)
  }

  lemma SentWindow(d: Dialect, q: Query, words: seq<string>, limit: int, offset: int)
    requires q.toks != [] && Reads(d, q.toks, words)
    ensures var r := Limited(Limited(q, LIMIT, limit), OFFSET, offset);
            Reads(d, r.toks, words + WindowWords(d, |q.args|, limit, offset)) && r.args == q.args + LimitArgs(limit) + LimitArgs(offset)
  {
    var p := Limited(q, LIMIT, limit);
    SentLimited(d, q, words, LIMIT, "LIMIT", limit);
    var mid := LimitWords(d, "LIMIT", limit, |q.args| + 1);
    SentLimited(d, p, words + mid, OFFSET, "OFFSET", offset);
    WordsAssoc(words, mid, LimitWords(d, "OFFSET", offset, |p.args| + 1));
  }

  lemma WordsAssoc(a: seq<string>, b: seq<string>, c: seq<string>)
    ensures a + b + c == a + (b + c)
  {
  }

  lemma SelectRest(d: Dialect, cols: Columns, columns: seq<string>, ts: seq<Token>, words: seq<string>, tail: seq<Token>, wt: seq<string>)
    requires SelectColumns(columns) == Ok(cols) && ts != [] && Reads(d, ts, words) && Reads(d, tail, wt)
    ensures Reads(d, ts + ColumnTokens(cols) + tail, words + [ColumnsText(cols)] + wt)
  {
    SentColumnTokens(d, columns);
    Follows(d, ts, words, ColumnTokens(cols), [ColumnsText(cols)]);
    Follows(d, ts + ColumnTokens(cols), words + [ColumnsText(cols)], tail, wt);
  }

  lemma SelectWords(d: Dialect, table: string)
    ensures Reads(d, [Kw(SELECT)], ["SELECT"]) && Reads(d, [Kw(FROM), Ident(table)], ["FROM", table])
  {
    SentOne(d, Kw(SELECT));
    ReadsWords(d, [Kw(FROM), Ident(table)]);
    assert WordsOf(d, [Kw(FROM), Ident(table)]) == ["FROM", table];
  }

  lemma SelectMiddle(d: Dialect, head: seq<Token>, words: seq<string>, opts: FindOptions)
    requires head != [] && Reads(d, head, words)
    requires WhereClauseOf(opts.where, 0).Ok? && CompileWhere(opts.where, 0).Ok? && OrderClause(opts.order).Ok?
    ensures Reads(d, head + WhereClauseOf(opts.where, 0).value.toks + OrderClause(opts.order).value,
                  words + WhereWords(d, opts.where, 0) + OrderClauseWords(opts.order))
  {
    SentWhere(d, opts.where, 0);
    Follows(d, head, words, WhereClauseOf(opts.where, 0).value.toks, WhereWords(d, opts.where, 0));
    SentOrderClause(d, opts.order);
    Follows(d, head + WhereClauseOf(opts.where, 0).value.toks, words + WhereWords(d, opts.where, 0),
            OrderClause(opts.order).value, OrderClauseWords(opts.order));
  }

  /** The text and the arguments of a SELECT. */
  lemma SelectText(d: Dialect, name: string, opts: FindOptions)
    requires SelectOf(name, opts).Ok?
    ensures SelectColumns(opts.columns).Ok? && CompileWhere(opts.where, 0).Ok?
    ensures var q, args := SelectOf(name, opts).value, CompileWhere(opts.where, 0).value.args;
            && TextOf(d, q) ==
               Spaced(["SELECT"] + [ColumnsText(SelectColumns(opts.columns).value)] + ["FROM", TrimSpace(name)]
                      + WhereWords(d, opts.where, 0) + OrderClauseWords(opts.order) + WindowWords(d, |args|, opts.limit, opts.offset))
            && q.args == args + LimitArgs(opts.limit) + LimitArgs(opts.offset)
  {
    var cols, w, order := SelectColumns(opts.columns).value, WhereClauseOf(opts.where, 0).value, OrderClause(opts.order).value;
    var head := [Kw(SELECT)] + ColumnTokens(cols) + [Kw(FROM), Ident(TrimSpace(name))];
    var words := ["SELECT"] + [ColumnsText(cols)] + ["FROM", TrimSpace(name)];
    SelectWords(d, TrimSpace(name));
    SelectRest(d, cols, opts.columns, [Kw(SELECT)], ["SELECT"], [Kw(FROM), Ident(TrimSpace(name))], ["FROM", TrimSpace(name)]);
    SelectMiddle(d, head, words, opts);
    SentWindow(d, Query(head + w.toks + order, w.args), words + WhereWords(d, opts.where, 0) + OrderClauseWords(opts.order), opts.limit, opts.offset);
  }
}
