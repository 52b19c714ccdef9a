/** The names in a compiled filter: the columns of its tree, and whether a server takes them for names. */
module WhereNames {
  import opened Strings
  import opened Sql
  import opened SqlText
  import opened Where
  import opened WhereParse

  // ---------------------------------------------------------------- the names in a tree

  // The server takes every column of the tree, at any depth, for a name.
  predicate NamesPlain(reserved: set<string>, es: seq<Entry>)
    decreases es
  {
    forall i :: 0 <= i < |es| ==> EntryPlain(reserved, es[i])
  }

  predicate EntryPlain(reserved: set<string>, e: Entry)
    decreases e
  {
    match KindOf(e.key)
    case AndKey => ListPlain(reserved, e.val)
    case OrKey => ListPlain(reserved, e.val)
    case NotKey => e.val.Obj? ==> NamesPlain(reserved, e.val.entries)
    case Column => PlainName(reserved, TrimSpace(e.key))
  }

  predicate ListPlain(reserved: set<string>, v: Value)
    decreases v
  {
    && (v.Obj? ==> NamesPlain(reserved, v.entries))
    && (v.List? ==> ItemsPlain(reserved, v.items))
  }

  predicate ItemsPlain(reserved: set<string>, cs: seq<Value>)
    decreases cs
  {
    forall i :: 0 <= i < |cs| && cs[i].Obj? ==> NamesPlain(reserved, cs[i].entries)
  }

  // ---------------------------------------------------------------- the names in the tokens

  // The tokens can be printed, and the names among them are plain exactly if `ok`.
  predicate Spelled(reserved: set<string>, ts: seq<Token>, ok: bool) {
    AllPrintable(ts) && (AllPlain(reserved, ts) <==> ok)
  }

  lemma SpelledConcat(reserved: set<string>, a: seq<Token>, x: bool, b: seq<Token>, y: bool)
    requires Spelled(reserved, a, x) && Spelled(reserved, b, y)
    ensures Spelled(reserved, a + b, x && y)
  {
    var ts := a + b;
    forall i | 0 <= i < |ts| ensures Printable(ts[i]) {
      assert ts[i] == if i < |a| then a[i] else b[i - |a|];
    }
    if AllPlain(reserved, ts) {
      forall i | 0 <= i < |a| && a[i].Ident? ensures PlainName(reserved, a[i].name) {
        assert ts[i] == a[i];
      }
      forall i | 0 <= i < |b| && b[i].Ident? ensures PlainName(reserved, b[i].name) {
        assert ts[|a| + i] == b[i];
      }
    }
  }

  // Tokens that are neither names nor literals.
  predicate Nameless(ts: seq<Token>) {
    forall i :: 0 <= i < |ts| ==> !ts[i].Ident? && !ts[i].Lit?
  }

  lemma SpelledAround(reserved: set<string>, pre: seq<Token>, ts: seq<Token>, ok: bool)
    requires Nameless(pre) && Spelled(reserved, ts, ok)
    ensures Spelled(reserved, pre + ts + [RP], ok)
  {
    SpelledConcat(reserved, pre, true, ts, ok);
    SpelledConcat(reserved, pre + ts, ok, [RP], true);
  }

  lemma AddSpelled(reserved: set<string>, p: Parts, f: Frag, sep: Keyword, x: bool, y: bool)
    requires Spelled(reserved, Join(p.parts, sep), x) && Spelled(reserved, f.toks, y)
    requires p.parts == [] ==> x
    ensures Spelled(reserved, Join(p.Add(f).parts, sep), x && y)
    ensures p.Add(f).parts == [] ==> x && y
  {
    if f.toks != [] {
      JoinAppend(p.parts, f.toks, sep);
      if p.parts != [] {
        SpelledConcat(reserved, Join(p.parts, sep), x, [Kw(sep)], true);
        SpelledConcat(reserved, Join(p.parts, sep) + [Kw(sep)], x, f.toks, y);
      }
    }
  }

  lemma {:induction false} WhereSpelled(reserved: set<string>, es: seq<Entry>, start: nat)
    requires CompileWhere(es, start).Ok?
    ensures Spelled(reserved, CompileWhere(es, start).value.toks, NamesPlain(reserved, es))
    ensures WhereParts(es, start).value.parts == [] ==> NamesPlain(reserved, es)
    decreases es
  {
    if es != [] {
      var init, last := es[..|es| - 1], es[|es| - 1];
      var p := WhereParts(init, start).value;
      WhereSpelled(reserved, init, start);
      EntrySpelled(reserved, last, p.next);
      AddSpelled(reserved, p, CompileEntry(last, p.next).value, AND, NamesPlain(reserved, init), EntryPlain(reserved, last));
      NamesLast(reserved, es);
    }
  }

  lemma {:induction false} NamesLast(reserved: set<string>, es: seq<Entry>)
    requires es != []
    ensures NamesPlain(reserved, es) <==> NamesPlain(reserved, es[..|es| - 1]) && EntryPlain(reserved, es[|es| - 1])
  {
    var init := es[..|es| - 1];
    if NamesPlain(reserved, init) && EntryPlain(reserved, es[|es| - 1]) {
      forall i | 0 <= i < |es| ensures EntryPlain(reserved, es[i]) {
        assert i < |init| ==> init[i] == es[i];
      }
    }
    if NamesPlain(reserved, es) {
      forall i | 0 <= i < |init| ensures EntryPlain(reserved, init[i]) {
        assert init[i] == es[i];
      }
    }
  }

  lemma {:induction false} EntrySpelled(reserved: set<string>, e: Entry, start: nat)
    requires CompileEntry(e, start).Ok?
    ensures Spelled(reserved, CompileEntry(e, start).value.toks, EntryPlain(reserved, e))
    decreases e
  {
    match KindOf(e.key)
    case AndKey => ListSpelled(reserved, AND, e.val, start);
    case OrKey => ListSpelled(reserved, OR, e.val, start);
    case NotKey =>
      assert CompileNot(e.val, start).Ok? && CompileCondition(e.val, start).Ok?;
      WhereSpelled(reserved, e.val.entries, start);
      SpelledAround(reserved, [Kw(NOT), LP], CompileCondition(e.val, start).value.toks, NamesPlain(reserved, e.val.entries));
    case Column =>
      var col := TrimSpace(e.key);
      if IsOperatorObject(e.val) {
        OperatorsSpelled(reserved, col, e.val.entries, start);
      } else {
        EqualsSpelled(reserved, col, e.val, start);
      }
  }

  lemma {:induction false} ListSpelled(reserved: set<string>, op: Keyword, v: Value, start: nat)
    requires CompileList(op, v, start).Ok?
    ensures Spelled(reserved, CompileList(op, v, start).value.toks, ListPlain(reserved, v))
    decreases v
  {
    match v
    case Null =>
    case Obj(es) =>
      WhereSpelled(reserved, es, start);
      var f := CompileWhere(es, start).value;
      assert CompileCondition(v, start) == Ok(f);
      assert Join(Parts([], [], start).Add(f).parts, op) == f.toks;
      SpelledAround(reserved, [LP], f.toks, NamesPlain(reserved, es));
    case List(items) =>
      ItemsSpelled(reserved, op, items, start);
      SpelledAround(reserved, [LP], Join(ConditionParts(items, start).value.parts, op), ItemsPlain(reserved, items));
  }

  lemma {:induction false} ItemsSpelled(reserved: set<string>, op: Keyword, cs: seq<Value>, start: nat)
    requires ConditionParts(cs, start).Ok?
    ensures Spelled(reserved, Join(ConditionParts(cs, start).value.parts, op), ItemsPlain(reserved, cs))
    ensures ConditionParts(cs, start).value.parts == [] ==> ItemsPlain(reserved, cs)
    decreases cs
  {
    if cs != [] {
      var init, last := cs[..|cs| - 1], cs[|cs| - 1];
      ItemsSpelled(reserved, op, init, start);
      var p := ConditionParts(init, start).value;
      WhereSpelled(reserved, last.entries, p.next);
      AddSpelled(reserved, p, CompileWhere(last.entries, p.next).value, op, ItemsPlain(reserved, init), NamesPlain(reserved, last.entries));
      ItemsLast(reserved, cs);
    }
  }

  lemma {:induction false} ItemsLast(reserved: set<string>, cs: seq<Value>)
    requires cs != [] && cs[|cs| - 1].Obj?
    ensures ItemsPlain(reserved, cs) <==> ItemsPlain(reserved, cs[..|cs| - 1]) && NamesPlain(reserved, cs[|cs| - 1].entries)
  {
    var init := cs[..|cs| - 1];
    if ItemsPlain(reserved, init) && NamesPlain(reserved, cs[|cs| - 1].entries) {
      forall i | 0 <= i < |cs| && cs[i].Obj? ensures NamesPlain(reserved, cs[i].entries) {
        assert i < |init| ==> init[i] == cs[i];
      }
    }
    if ItemsPlain(reserved, cs) {
      forall i | 0 <= i < |init| && init[i].Obj? ensures NamesPlain(reserved, init[i].entries) {
        assert init[i] == cs[i];
      }
    }
  }

  // Every operator names its column once.
  lemma {:induction false} OperatorsSpelled(reserved: set<string>, col: string, ops: seq<Entry>, start: nat)
    requires IsIdent(col) && CompileOperators(col, ops, start).Ok?
    ensures Spelled(reserved, CompileOperators(col, ops, start).value.toks, ops == [] || PlainName(reserved, col))
    ensures |OperatorParts(col, ops, start).value.parts| == |ops|
    decreases ops
  {
    if ops != [] {
      var init, last := ops[..|ops| - 1], ops[|ops| - 1];
      OperatorsSpelled(reserved, col, init, start);
      var p := OperatorParts(col, init, start).value;
      OperatorSpelled(reserved, col, last, p.next);
      var f := CompileOperator(col, last, p.next).value;
      OperatorNumbered(col, last, p.next);
      AddSpelled(reserved, p, f, AND, init == [] || PlainName(reserved, col), PlainName(reserved, col));
    }
  }

  lemma LeafSpelled(reserved: set<string>, col: string, rest: seq<Token>)
    requires IsIdent(col) && forall i :: 0 <= i < |rest| ==> !rest[i].Ident? && Printable(rest[i])
    ensures Spelled(reserved, [Ident(col)] + rest, PlainName(reserved, col))
  {
    var ts := [Ident(col)] + rest;
    assert ts[0] == Ident(col);
    assert forall i :: 1 <= i < |ts| ==> ts[i] == rest[i - 1];
  }

  lemma CompareSpelled(reserved: set<string>, col: string, op: CmpOp, v: Value, start: nat)
    requires IsIdent(col)
    ensures Spelled(reserved, CompareFrag(col, op, v, start).toks, PlainName(reserved, col))
  {
    LeafSpelled(reserved, col, [Op(op), Ph(start + 1)]);
    assert [Ident(col)] + [Op(op), Ph(start + 1)] == [Ident(col), Op(op), Ph(start + 1)];
  }

  lemma NullSpelled(reserved: set<string>, col: string, isNull: bool, start: nat)
    requires IsIdent(col)
    ensures Spelled(reserved, NullFrag(col, isNull, start).toks, PlainName(reserved, col))
  {
    var rest := if isNull then [Kw(IS), Kw(NULL)] else [Kw(IS), Kw(NOT), Kw(NULL)];
    LeafSpelled(reserved, col, rest);
    assert NullFrag(col, isNull, start).toks == [Ident(col)] + rest;
  }

  lemma EqualsSpelled(reserved: set<string>, col: string, v: Value, start: nat)
    requires IsIdent(col)
    ensures Spelled(reserved, EqualsFrag(col, v, start).toks, PlainName(reserved, col))
  {
    if v.Null? {
      NullSpelled(reserved, col, true, start);
    } else {
      CompareSpelled(reserved, col, Eq, v, start);
    }
  }

  lemma EmptySpelled(reserved: set<string>, col: string, op: CmpOp)
    requires IsIdent(col)
    ensures Spelled(reserved, [Ident(col), Op(op), Lit(Str(""))], PlainName(reserved, col))
  {
    LeafSpelled(reserved, col, [Op(op), Lit(Str(""))]);
    assert [Ident(col)] + [Op(op), Lit(Str(""))] == [Ident(col), Op(op), Lit(Str(""))];
  }

  lemma {:induction false} HoldersNameless(start: nat, n: nat)
    ensures Nameless(Holders(start, n))
  {
    if n > 1 {
      HoldersNameless(start, n - 1);
    }
  }

  lemma InSpelled(reserved: set<string>, col: string, negated: bool, items: seq<Value>, start: nat)
    requires IsIdent(col) && items != []
    ensures Spelled(reserved, InFrag(col, List(items), negated, start).value.toks, PlainName(reserved, col))
  {
    var op := if negated then [Kw(NOT), Kw(IN)] else [Kw(IN)];
    var rest := op + [LP] + Holders(start, |items|) + [RP];
    HoldersNameless(start, |items|);
    LeafSpelled(reserved, col, rest);
    assert [Ident(col)] + rest == [Ident(col)] + op + [LP] + Holders(start, |items|) + [RP];
  }

  lemma {:induction false} OperatorSpelled(reserved: set<string>, col: string, e: Entry, start: nat)
    requires IsIdent(col) && CompileOperator(col, e, start).Ok?
    ensures Spelled(reserved, CompileOperator(col, e, start).value.toks, PlainName(reserved, col))
    decreases e
  {
    match OpOf(e.key)
    case Equals => EqualsSpelled(reserved, col, e.val, start);
    case Negate => NegateSpelled(reserved, col, e.val, start);
    case InOp(negated) => InSpelled(reserved, col, negated, e.val.items, start);
    case Order(op) => CompareSpelled(reserved, col, op, e.val, start);
    case Text(t) => CompareSpelled(reserved, col, Like, Str(LikePattern(t, e.val.s)), start);
    case IsSet => NullSpelled(reserved, col, !e.val.b, start);
    case IsEmpty => EmptySpelled(reserved, col, if e.val.b then Eq else Ne);
  }

  lemma {:induction false} NegateSpelled(reserved: set<string>, col: string, v: Value, start: nat)
    requires IsIdent(col) && CompileNotField(col, v, start).Ok?
    ensures Spelled(reserved, CompileNotField(col, v, start).value.toks, PlainName(reserved, col))
    decreases v, 0
  {
    if v.Obj? && v.entries != [] {
      OperatorsSpelled(reserved, col, v.entries, start);
      SpelledAround(reserved, [Kw(NOT), LP], CompileOperators(col, v.entries, start).value.toks, PlainName(reserved, col));
    } else if v.Null? {
      NullSpelled(reserved, col, false, start);
    } else {
      CompareSpelled(reserved, col, Ne, v, start);
    }
  }
}
