/** What each key of a filter means, stated by the letters of the key: the operators of a field, and
    AND, OR and NOT. */
module FilterKeys {
  import opened Strings
  import opened Sql
  import opened Where
  import opened WhereMeaning
  import opened Spelling
  import opened LikeText

  // ---------------------------------------------------------------- from keys to operators

  const OperatorWords: seq<string> :=
    ["equals", "is", "not", "isnot", "in", "notin", "lt", "lte", "gt", "gte", "contains", "startswith", "endswith",
     "isset", "isempty", "some", "every", "none", "has", "hasevery", "hassome"]

  ghost predicate IsOperatorKey(key: string) {
    exists w :: w in OperatorWords && Spells(key, w)
  }

  lemma WordsAreWords(w: string)
    requires w in OperatorWords
    ensures Word(w)
  {
  }

  /** A key is an operator exactly when it spells one of the words. */
  lemma OperatorKeys(key: string)
    ensures OpOf(key) != NoOperator <==> IsOperatorKey(key)
  {
    var op := ToLower(TrimSpace(key));
    forall w | w in OperatorWords ensures op == w <==> Spells(key, w) {
      WordsAreWords(w);
      LoweredSpells(key, w);
    }
    assert OpOf(key) != NoOperator <==> op in OperatorWords;
  }

  lemma SpelledOperator(key: string, w: string)
    requires Word(w) && Spells(key, w)
    ensures OpOf(key) == OpOfWord(w)
  {
    LoweredSpells(key, w);
  }

  ghost predicate Connects(key: string) {
    Spells(key, "and") || Spells(key, "or") || Spells(key, "not")
  }

  /** A key is one of the three connectives exactly when it spells it, and otherwise names a column. */
  lemma ConnectiveKeys(key: string)
    ensures KindOf(key) == AndKey <==> Spells(key, "and")
    ensures KindOf(key) == OrKey <==> Spells(key, "or")
    ensures KindOf(key) == NotKey <==> Spells(key, "not")
    ensures KindOf(key) == Column <==> !Connects(key)
  {
    RaisedSpells(key, "AND", "and");
    RaisedSpells(key, "OR", "or");
    RaisedSpells(key, "NOT", "not");
  }

  // The key names the column `c`: a valid name with blanks around it that is no connective.
  ghost predicate NamesColumn(key: string, c: string) {
    ValidIdentifier(key) == Ok(c) && !Connects(key)
  }

  // ---------------------------------------------------------------- one condition on one column

  lemma OneEntry(eng: Engine, e: Entry, row: Row)
    ensures Meaning(eng, [e], row) == EntryMeaning(eng, e, row)
  {
    assert [e][..0] == [];
    assert Meaning(eng, [], row) == None;
  }

  lemma OneField(eng: Engine, key: string, c: string, v: Value, row: Row)
    requires NamesColumn(key, c)
    ensures Meaning(eng, [Entry(key, v)], row) == Some(FieldMeaning(eng, c, v, row))
  {
    ConnectiveKeys(key);
    OneEntry(eng, Entry(key, v), row);
  }

  // The filter `{key: {k: v}}`.
  function Condition(key: string, k: string, v: Value): seq<Entry> {
    [Entry(key, Obj([Entry(k, v)]))]
  }

  lemma OneOperator(eng: Engine, key: string, c: string, k: string, v: Value, row: Row)
    requires NamesColumn(key, c) && OpOf(k) != NoOperator
    ensures Meaning(eng, Condition(key, k, v), row) == Some(OperatorMeaning(eng, c, Entry(k, v), row))
  {
    var ops := [Entry(k, v)];
    OneField(eng, key, c, Obj(ops), row);
    assert ops[0].key == k;
    assert ops[..0] == [];
    assert OperatorsMeaning(eng, c, ops, row) == And3(True, OperatorMeaning(eng, c, ops[0], row));
  }

  // What `holds` says of two values, where a NULL leaves it open.
  function Known(x: Value, v: Value, holds: bool): Option<Tri> {
    Some(if x == Null || v == Null then Unknown else if holds then True else False)
  }

  function Cell(row: Row, c: string): Value {
    if c in row then row[c] else Null
  }

  lemma Spelled(eng: Engine, key: string, c: string, k: string, w: string, v: Value, row: Row)
    requires NamesColumn(key, c) && Word(w) && Spells(k, w) && OpOfWord(w) != NoOperator
    ensures OpOf(k) == OpOfWord(w) && Meaning(eng, Condition(key, k, v), row) == Some(OperatorMeaning(eng, c, Entry(k, v), row))
  {
    SpelledOperator(k, w);
    OneOperator(eng, key, c, k, v, row);
  }

  lemma OrderWords()
    ensures Word("lt") && Word("lte") && Word("gt") && Word("gte")
    ensures OpOfWord("lt") == Order(Lt) && OpOfWord("lte") == Order(Le)
    ensures OpOfWord("gt") == Order(Gt) && OpOfWord("gte") == Order(Ge)
  {
  }

  lemma Ordered(eng: Engine, key: string, c: string, k: string, w: string, op: CmpOp, v: Value, row: Row)
    requires NamesColumn(key, c) && Word(w) && Spells(k, w) && OpOfWord(w) == Order(op)
    ensures Meaning(eng, Condition(key, k, v), row) == Known(Cell(row, c), v, eng(op, Cell(row, c), v))
  {
    Spelled(eng, key, c, k, w, v, row);
  }

  /** `lt`, `lte`, `gt` and `gte`, in any case and with blanks around them, compare as they say. */
  lemma OrderOperators(eng: Engine, key: string, c: string, k: string, v: Value, row: Row)
    requires NamesColumn(key, c)
    ensures var m, x := Meaning(eng, Condition(key, k, v), row), Cell(row, c);
            && (Spells(k, "lt") ==> m == Known(x, v, eng(Lt, x, v)))
            && (Spells(k, "lte") ==> m == Known(x, v, eng(Le, x, v)))
            && (Spells(k, "gt") ==> m == Known(x, v, eng(Gt, x, v)))
            && (Spells(k, "gte") ==> m == Known(x, v, eng(Ge, x, v)))
  {
    OrderWords();
    if Spells(k, "lt") { Ordered(eng, key, c, k, "lt", Lt, v, row); }
    if Spells(k, "lte") { Ordered(eng, key, c, k, "lte", Le, v, row); }
    if Spells(k, "gt") { Ordered(eng, key, c, k, "gt", Gt, v, row); }
    if Spells(k, "gte") { Ordered(eng, key, c, k, "gte", Ge, v, row); }
  }

  /** `equals` and `is` test for equality, or for NULL. */
  lemma EqualityOperators(eng: Engine, key: string, c: string, k: string, v: Value, row: Row)
    requires NamesColumn(key, c) && (Spells(k, "equals") || Spells(k, "is"))
    ensures var m, x := Meaning(eng, Condition(key, k, v), row), Cell(row, c);
            m == if v == Null then Some(if x == Null then True else False) else Known(x, v, eng(Eq, x, v))
  {
    Spelled(eng, key, c, k, if Spells(k, "is") then "is" else "equals", v, row);
  }

  /** A value without operators is tested for equality, or for NULL, as it is. */
  lemma PlainValues(eng: Engine, key: string, c: string, v: Value, row: Row)
    requires NamesColumn(key, c)
    requires v.Obj? ==> forall i :: 0 <= i < |v.entries| ==> !IsOperatorKey(v.entries[i].key)
    ensures var m, x := Meaning(eng, [Entry(key, v)], row), Cell(row, c);
            m == if v == Null then Some(if x == Null then True else False) else Known(x, v, eng(Eq, x, v))
  {
    OneField(eng, key, c, v, row);
    if v.Obj? {
      forall i | 0 <= i < |v.entries| ensures OpOf(v.entries[i].key) == NoOperator {
        OperatorKeys(v.entries[i].key);
      }
    }
  }

  function Opposite(m: Option<Tri>): Option<Tri> {
    match m
    case Some(True) => Some(False)
    case Some(False) => Some(True)
    case _ => m
  }

  /** `not` and `isNot` negate the operators of a map, and otherwise test for inequality, or for NULL. */
  lemma NegationOperators(eng: Engine, key: string, c: string, k: string, v: Value, row: Row)
    requires NamesColumn(key, c) && (Spells(k, "not") || Spells(k, "isnot"))
    ensures var m, x := Meaning(eng, Condition(key, k, v), row), Cell(row, c);
            && (v == Null ==> m == Some(if x == Null then False else True))
            && (v != Null && (v.Obj? ==> v.entries == []) ==> m == Known(x, v, eng(Ne, x, v)))
            && (v.Obj? && (exists i :: 0 <= i < |v.entries| && IsOperatorKey(v.entries[i].key)) ==>
                  m == Opposite(Meaning(eng, [Entry(key, v)], row)))
  {
    Spelled(eng, key, c, k, if Spells(k, "not") then "not" else "isnot", v, row);
    if v.Obj? {
      OneField(eng, key, c, v, row);
      forall i | 0 <= i < |v.entries| && IsOperatorKey(v.entries[i].key) ensures OpOf(v.entries[i].key) != NoOperator {
        OperatorKeys(v.entries[i].key);
      }
    }
  }

  lemma {:induction false} MemberMeans(eng: Engine, x: Value, vs: seq<Value>)
    ensures var m := MemberOf(eng, x, vs);
            && (m == True <==> x != Null && exists i :: 0 <= i < |vs| && vs[i] != Null && eng(Eq, x, vs[i]))
            && (m == False <==> vs == [] || (x != Null && forall i :: 0 <= i < |vs| ==> vs[i] != Null && !eng(Eq, x, vs[i])))
  {
    if vs != [] {
      MemberMeans(eng, x, vs[1..]);
      assert vs == [vs[0]] + vs[1..];
      assert forall i :: 0 <= i < |vs| - 1 ==> vs[1..][i] == vs[i + 1];
      assert forall i :: 1 <= i < |vs| ==> vs[i] == vs[1..][i - 1];
    }
  }

  lemma ListWords()
    ensures Word("in") && Word("notin")
    ensures OpOfWord("in") == InOp(false) && OpOfWord("notin") == InOp(true)
  {
  }

  /** `in` holds when some value of the list equals the column, and fails when all are known to differ;
      `notIn` is the opposite. */
  lemma ListOperators(eng: Engine, key: string, c: string, k: string, vs: seq<Value>, row: Row)
    requires NamesColumn(key, c) && vs != [] && (Spells(k, "in") || Spells(k, "notin"))
    ensures var m, x := Meaning(eng, Condition(key, k, List(vs)), row), Cell(row, c);
            var found := x != Null && exists i :: 0 <= i < |vs| && vs[i] != Null && eng(Eq, x, vs[i]);
            var differs := x != Null && forall i :: 0 <= i < |vs| ==> vs[i] != Null && !eng(Eq, x, vs[i]);
            && (Spells(k, "in") ==> m == Some(if found then True else if differs then False else Unknown))
            && (Spells(k, "notin") ==> m == Some(if found then False else if differs then True else Unknown))
  {
    ListWords();
    if Spells(k, "in") { Spelled(eng, key, c, k, "in", List(vs), row); }
    if Spells(k, "notin") { Spelled(eng, key, c, k, "notin", List(vs), row); }
    MemberMeans(eng, Cell(row, c), vs);
  }

  lemma PresenceWords()
    ensures Word("isset") && Word("isempty")
    ensures OpOfWord("isset") == IsSet && OpOfWord("isempty") == IsEmpty
  {
  }

  /** `isSet` asks whether the column is not NULL, `isEmpty` whether it is the empty text. */
  lemma PresenceOperators(eng: Engine, key: string, c: string, k: string, b: bool, row: Row)
    requires NamesColumn(key, c)
    ensures var m, x := Meaning(eng, Condition(key, k, Bool(b)), row), Cell(row, c);
            && (Spells(k, "isset") ==> m == Some(if b == (x != Null) then True else False))
            && (Spells(k, "isempty") ==> m == Known(x, Str(""), if b then eng(Eq, x, Str("")) else eng(Ne, x, Str(""))))
  {
    PresenceWords();
    if Spells(k, "isset") { Spelled(eng, key, c, k, "isset", Bool(b), row); }
    if Spells(k, "isempty") { Spelled(eng, key, c, k, "isempty", Bool(b), row); }
  }

  // The engine compares texts with LIKE as the standard has it.
  ghost predicate LikesTexts(eng: Engine, esc: bool) {
    forall x, p :: eng(Like, Str(x), Str(p)) == LikeMatch(esc, x, p)
  }

  // The text holds the operand, or starts or ends with it.
  ghost predicate Holds(t: TextOp, x: string, s: string) {
    match t
    case Contains => exists p, q :: x == p + s + q
    case StartsWith => exists q :: x == s + q
    case EndsWith => exists p :: x == p + s
  }

  lemma HoldsMeans(t: TextOp, x: string, s: string)
    ensures TextHolds(t, x, s) <==> Holds(t, x, s)
  {
    match t
    case Contains =>
      if i: nat :| OccursAt(s, x, i) {
        assert x == x[..i] + s + x[i..][|s|..];
      }
      if p, q :| x == p + s + q {
        assert x[|p|..] == s + q;
        assert OccursAt(s, x, |p|);
      }
    case StartsWith =>
      if s <= x { assert x == s + x[|s|..]; }
    case EndsWith =>
      if |s| <= |x| && x[|x| - |s|..] == s { assert x == x[..|x| - |s|] + s; }
  }

  lemma TextWords()
    ensures Word("contains") && Word("startswith") && Word("endswith")
    ensures OpOfWord("contains") == Text(Contains) && OpOfWord("startswith") == Text(StartsWith) && OpOfWord("endswith") == Text(EndsWith)
  {
  }

  lemma Texted(eng: Engine, esc: bool, key: string, c: string, k: string, w: string, t: TextOp, x: string, s: string, row: Row)
    requires NamesColumn(key, c) && Cell(row, c) == Str(x) && LikesTexts(eng, esc) && Ordinary(esc, s)
    requires Word(w) && Spells(k, w) && OpOfWord(w) == Text(t)
    ensures Meaning(eng, Condition(key, k, Str(s)), row) == Some(if Holds(t, x, s) then True else False)
  {
    Spelled(eng, key, c, k, w, Str(s), row);
    PlainTextHolds(esc, t, x, s);
    HoldsMeans(t, x, s);
  }

  /** `contains`, `startsWith` and `endsWith` hold exactly of the texts that do, for operands without
      wildcards. */
  lemma TextOperators(eng: Engine, esc: bool, key: string, c: string, k: string, x: string, s: string, row: Row)
    requires NamesColumn(key, c) && Cell(row, c) == Str(x) && LikesTexts(eng, esc) && Ordinary(esc, s)
    ensures var m := Meaning(eng, Condition(key, k, Str(s)), row);
            && (Spells(k, "contains") ==> m == Some(if exists p, q :: x == p + s + q then True else False))
            && (Spells(k, "startswith") ==> m == Some(if exists q :: x == s + q then True else False))
            && (Spells(k, "endswith") ==> m == Some(if exists p :: x == p + s then True else False))
  {
    TextWords();
    if Spells(k, "contains") { Texted(eng, esc, key, c, k, "contains", Contains, x, s, row); }
    if Spells(k, "startswith") { Texted(eng, esc, key, c, k, "startswith", StartsWith, x, s, row); }
    if Spells(k, "endswith") { Texted(eng, esc, key, c, k, "endswith", EndsWith, x, s, row); }
  }

  /** A NULL column leaves the text operators open. */
  lemma TextOfNull(eng: Engine, key: string, c: string, k: string, s: string, row: Row)
    requires NamesColumn(key, c) && Cell(row, c) == Null
    requires Spells(k, "contains") || Spells(k, "startswith") || Spells(k, "endswith")
    ensures Meaning(eng, Condition(key, k, Str(s)), row) == Some(Unknown)
  {
    TextWords();
    var w := if Spells(k, "contains") then "contains" else if Spells(k, "startswith") then "startswith" else "endswith";
    Spelled(eng, key, c, k, w, Str(s), row);
  }

  // ---------------------------------------------------------------- connectives

  // All of the conditions that are there: false once one is, open once one is and none is false.
  function AllOf(ms: seq<Option<Tri>>): Option<Tri> {
    if Some(False) in ms then Some(False)
    else if Some(Unknown) in ms then Some(Unknown)
    else if Some(True) in ms then Some(True)
    else None
  }

  // One of the conditions that are there: true once one is, open once one is and none is true.
  function AnyOf(ms: seq<Option<Tri>>): Option<Tri> {
    if Some(True) in ms then Some(True)
    else if Some(Unknown) in ms then Some(Unknown)
    else if Some(False) in ms then Some(False)
    else None
  }

  lemma AppendHas(ms: seq<Option<Tri>>, m: Option<Tri>, x: Option<Tri>)
    ensures x in ms + [m] <==> x in ms || x == m
  {
  }

  lemma AllOfAppend(ms: seq<Option<Tri>>, m: Option<Tri>)
    ensures AllOf(ms + [m]) == Both(AllOf(ms), m)
  {
    AppendHas(ms, m, Some(True));
    AppendHas(ms, m, Some(False));
    AppendHas(ms, m, Some(Unknown));
    match m {
      case None =>
      case Some(True) =>
      case Some(False) =>
      case Some(Unknown) =>
    }
  }

  lemma AnyOfAppend(ms: seq<Option<Tri>>, m: Option<Tri>)
    ensures AnyOf(ms + [m]) == Either(AnyOf(ms), m)
  {
    AppendHas(ms, m, Some(True));
    AppendHas(ms, m, Some(False));
    AppendHas(ms, m, Some(Unknown));
    match m {
      case None =>
      case Some(True) =>
      case Some(False) =>
      case Some(Unknown) =>
    }
  }

  // The meanings of the entries, and of the conditions of a list, each taken by itself.
  function EntryMeanings(eng: Engine, es: seq<Entry>, row: Row): seq<Option<Tri>> {
    seq(|es|, i requires 0 <= i < |es| => Meaning(eng, [es[i]], row))
  }

  function ItemMeanings(eng: Engine, items: seq<Value>, row: Row): seq<Option<Tri>> {
    seq(|items|, i requires 0 <= i < |items| => if items[i].Obj? then Meaning(eng, items[i].entries, row) else None)
  }

  /** The entries of a filter hold together: all of them that are there. */
  lemma {:induction false} EntriesTogether(eng: Engine, es: seq<Entry>, row: Row)
    ensures Meaning(eng, es, row) == AllOf(EntryMeanings(eng, es, row))
  {
    if es != [] {
      var init, last := es[..|es| - 1], es[|es| - 1];
      EntriesTogether(eng, init, row);
      OneEntry(eng, last, row);
      AllOfAppend(EntryMeanings(eng, init, row), EntryMeaning(eng, last, row));
      assert EntryMeanings(eng, es, row) == EntryMeanings(eng, init, row) + [EntryMeaning(eng, last, row)];
    }
  }

  lemma {:induction false} ItemsTogether(eng: Engine, items: seq<Value>, row: Row)
    ensures AllMeaning(eng, items, row) == AllOf(ItemMeanings(eng, items, row))
    ensures AnyMeaning(eng, items, row) == AnyOf(ItemMeanings(eng, items, row))
  {
    if items != [] {
      var init, last := items[..|items| - 1], items[|items| - 1];
      ItemsTogether(eng, init, row);
      var m := ConditionMeaning(eng, last, row);
      AllOfAppend(ItemMeanings(eng, init, row), m);
      AnyOfAppend(ItemMeanings(eng, init, row), m);
      assert ItemMeanings(eng, items, row) == ItemMeanings(eng, init, row) + [m];
    }
  }

  /** AND, OR and NOT, in any case and with blanks around them: all of a list, one of a list, and the
      opposite of a condition; a single condition stands for itself, and null for none. */
  lemma Connectives(eng: Engine, k: string, v: Value, row: Row)
    ensures var m := Meaning(eng, [Entry(k, v)], row);
            && (v.List? && Spells(k, "and") ==> m == AllOf(ItemMeanings(eng, v.items, row)))
            && (v.List? && Spells(k, "or") ==> m == AnyOf(ItemMeanings(eng, v.items, row)))
            && (v.Obj? && (Spells(k, "and") || Spells(k, "or")) ==> m == Meaning(eng, v.entries, row))
            && (v.Obj? && Spells(k, "not") ==> m == Opposite(Meaning(eng, v.entries, row)))
            && (v == Null && Connects(k) ==> m == None)
  {
    ConnectiveKeys(k);
    OneEntry(eng, Entry(k, v), row);
    if v.List? {
      ItemsTogether(eng, v.items, row);
    }
  }

  // ---------------------------------------------------------------- refusals

  lemma OneCompiled(e: Entry, start: nat)
    ensures CompileEntry(e, start).Err? ==> CompileWhere([e], start) == Err(CompileEntry(e, start).error)
    ensures CompileEntry(e, start).Ok? ==>
              var f := CompileEntry(e, start).value;
              CompileWhere([e], start) == Ok(if f.toks == [] then Frag([], [], f.next) else f)
  {
    assert [e][..0] == [];
    assert WhereParts([], start) == Ok(Parts([], [], start));
    if CompileEntry(e, start).Ok? && CompileEntry(e, start).value.toks != [] {
      var f := CompileEntry(e, start).value;
      assert [] + [f.toks] == [f.toks] && [] + f.args == f.args;
    }
  }

  lemma OnePart(c: string, e: Entry, start: nat)
    ensures CompileOperators(c, [e], start) == CompileOperator(c, e, start)
  {
    assert [e][..0] == [];
    assert OperatorParts(c, [], start) == Ok(Parts([], [], start));
    if CompileOperator(c, e, start).Ok? {
      var f := CompileOperator(c, e, start).value;
      assert [] + [f.toks] == [f.toks] && [] + f.args == f.args;
    }
  }

  lemma OneOperatorCompiled(key: string, c: string, k: string, v: Value, start: nat)
    requires NamesColumn(key, c) && OpOf(k) != NoOperator
    ensures var r := CompileOperator(c, Entry(k, v), start);
            CompileWhere(Condition(key, k, v), start) == if r.Ok? && r.value.toks == [] then Ok(Frag([], [], r.value.next)) else r
  {
    var ops := [Entry(k, v)];
    ConnectiveKeys(key);
    OneCompiled(Entry(key, Obj(ops)), start);
    assert ops[0].key == k;
    OnePart(c, ops[0], start);
  }

  lemma UnsupportedWords()
    ensures Word("some") && Word("every") && Word("none")
    ensures OpOfWord("some") == OpOfWord("every") == OpOfWord("none") == Unsupported
  {
  }

  lemma UnsupportedListWords()
    ensures Word("has") && Word("hasevery") && Word("hassome")
    ensures OpOfWord("has") == OpOfWord("hasevery") == OpOfWord("hassome") == Unsupported
  {
  }

  /** The relation and list operators are recognised and refused as unsupported. */
  lemma UnsupportedRefused(key: string, c: string, k: string, v: Value, start: nat)
    requires NamesColumn(key, c)
    requires || Spells(k, "some") || Spells(k, "every") || Spells(k, "none")
             || Spells(k, "has") || Spells(k, "hasevery") || Spells(k, "hassome")
    ensures CompileWhere(Condition(key, k, v), start) == Err(UnsupportedOperator)
  {
    UnsupportedWords();
    UnsupportedListWords();
    var w := if Spells(k, "some") then "some" else if Spells(k, "every") then "every" else if Spells(k, "none") then "none"
             else if Spells(k, "has") then "has" else if Spells(k, "hasevery") then "hasevery" else "hassome";
    SpelledOperator(k, w);
    OneOperatorCompiled(key, c, k, v, start);
  }

  predicate WrongOperand(op: OpKind, v: Value) {
    match op
    case InOp(_) => v.List? ==> v.items == []
    case Text(_) => !v.Str?
    case IsSet => !v.Bool?
    case IsEmpty => !v.Bool?
    case _ => false
  }

  lemma OperandRefused(key: string, c: string, k: string, w: string, v: Value, start: nat)
    requires NamesColumn(key, c) && Word(w) && Spells(k, w) && WrongOperand(OpOfWord(w), v)
    ensures CompileWhere(Condition(key, k, v), start) == Err(InvalidInput)
  {
    SpelledOperator(k, w);
    OneOperatorCompiled(key, c, k, v, start);
  }

  /** `in` and `notIn` refuse anything but a list with a value in it, the text operators anything but a
      text, `isSet` and `isEmpty` anything but a boolean. */
  lemma OperandsRefused(key: string, c: string, k: string, v: Value, start: nat)
    requires NamesColumn(key, c)
    ensures var r := CompileWhere(Condition(key, k, v), start);
            && (Spells(k, "in") || Spells(k, "notin") ==> (v.List? ==> v.items == []) ==> r == Err(InvalidInput))
            && (Spells(k, "contains") || Spells(k, "startswith") || Spells(k, "endswith") ==> !v.Str? ==> r == Err(InvalidInput))
            && (Spells(k, "isset") || Spells(k, "isempty") ==> !v.Bool? ==> r == Err(InvalidInput))
  {
    ListWords();
    TextWords();
    PresenceWords();
    if (v.List? ==> v.items == []) {
      if Spells(k, "in") { OperandRefused(key, c, k, "in", v, start); }
      if Spells(k, "notin") { OperandRefused(key, c, k, "notin", v, start); }
    }
    if !v.Str? {
      if Spells(k, "contains") { OperandRefused(key, c, k, "contains", v, start); }
      if Spells(k, "startswith") { OperandRefused(key, c, k, "startswith", v, start); }
      if Spells(k, "endswith") { OperandRefused(key, c, k, "endswith", v, start); }
    }
    if !v.Bool? {
      if Spells(k, "isset") { OperandRefused(key, c, k, "isset", v, start); }
      if Spells(k, "isempty") { OperandRefused(key, c, k, "isempty", v, start); }
    }
  }

  /** One operator in a map makes every other key an operator too: any other word is refused. */
  lemma StrangersRefused(key: string, c: string, ops: seq<Entry>, start: nat, i: nat, j: nat)
    requires NamesColumn(key, c) && i < |ops| && j < |ops|
    requires IsOperatorKey(ops[i].key) && !IsOperatorKey(ops[j].key)
    ensures CompileWhere([Entry(key, Obj(ops))], start).Err?
  {
    ConnectiveKeys(key);
    OperatorKeys(ops[i].key);
    OperatorKeys(ops[j].key);
    var es := [Entry(key, Obj(ops))];
    AcceptsExactlyWellFormed(es, start);
    assert WellFormed(es) ==> WellFormedEntry(es[0]);
    assert IsOperatorObject(Obj(ops)) && !WellFormedOp(ops[j]);
  }

  /** A condition on what is no column is refused, NOT wants a condition, and AND and OR want a
      condition, a list or null. */
  lemma ShapesRefused(key: string, v: Value, start: nat)
    ensures var r := CompileWhere([Entry(key, v)], start);
            && (!Connects(key) && ValidIdentifier(key).Err? ==> r == Err(InvalidInput))
            && (Spells(key, "not") && !v.Obj? ==> r == Err(InvalidInput))
            && (Spells(key, "and") || Spells(key, "or") ==> v != Null && !v.Obj? && !v.List? ==> r == Err(InvalidInput))
  {
    var e := Entry(key, v);
    ConnectiveKeys(key);
    OneCompiled(e, start);
    assert !v.Obj? ==> CompileNot(v, start) == Err(InvalidInput);
    assert Spells(key, "not") && !v.Obj? ==> CompileEntry(e, start) == Err(InvalidInput);
    assert (Spells(key, "and") || Spells(key, "or")) && v != Null && !v.Obj? && !v.List? ==> CompileEntry(e, start) == Err(InvalidInput);
    assert !Connects(key) && ValidIdentifier(key).Err? ==> CompileEntry(e, start) == Err(InvalidInput);
  }
}
