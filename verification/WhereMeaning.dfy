/** What a filter tree means, stated without SQL, and the proof that the compiled text,
    parsed with SQL's precedence and bound to its arguments, means exactly that. */
module WhereMeaning {
  import opened Strings
  import opened Sql
  import opened Where

  // ---------------------------------------------------------------- meaning of a filter tree
  // An empty sub-condition is absent: neither true nor false, it just does not take part.

  function Both(a: Option<Tri>, b: Option<Tri>): Option<Tri> {
    if a.None? then b else if b.None? then a else Some(And3(a.value, b.value))
  }

  function Either(a: Option<Tri>, b: Option<Tri>): Option<Tri> {
    if a.None? then b else if b.None? then a else Some(Or3(a.value, b.value))
  }

  function Meaning(eng: Engine, es: seq<Entry>, row: Row): Option<Tri>
    decreases es
  {
    if es == [] then None
    else Both(Meaning(eng, es[..|es| - 1], row), EntryMeaning(eng, es[|es| - 1], row))
  }

  function EntryMeaning(eng: Engine, e: Entry, row: Row): Option<Tri>
    decreases e
  {
    match KindOf(e.key)
    case AndKey =>
      if e.val.List? then AllMeaning(eng, e.val.items, row) else ConditionMeaning(eng, e.val, row)
    case OrKey =>
      if e.val.List? then AnyMeaning(eng, e.val.items, row) else ConditionMeaning(eng, e.val, row)
    case NotKey =>
      var c := ConditionMeaning(eng, e.val, row);
      if c.None? then None else Some(Not3(c.value))
    case Column => Some(FieldMeaning(eng, TrimSpace(e.key), e.val, row))
  }

  function ConditionMeaning(eng: Engine, v: Value, row: Row): Option<Tri>
    decreases v
  {
    if v.Obj? then Meaning(eng, v.entries, row) else None
  }

  function AllMeaning(eng: Engine, cs: seq<Value>, row: Row): Option<Tri>
    decreases cs
  {
    if cs == [] then None
    else Both(AllMeaning(eng, cs[..|cs| - 1], row), ConditionMeaning(eng, cs[|cs| - 1], row))
  }

  function AnyMeaning(eng: Engine, cs: seq<Value>, row: Row): Option<Tri>
    decreases cs
  {
    if cs == [] then None
    else Either(AnyMeaning(eng, cs[..|cs| - 1], row), ConditionMeaning(eng, cs[|cs| - 1], row))
  }

  function FieldMeaning(eng: Engine, col: string, v: Value, row: Row): Tri
    decreases v
  {
    if IsOperatorObject(v) then OperatorsMeaning(eng, col, v.entries, row)
    else EqualsMeaning(eng, ColumnOf(row, col), v)
  }

  function EqualsMeaning(eng: Engine, a: Value, v: Value): Tri {
    if v.Null? then Truth(a.Null?) else Compare(eng, Eq, a, v)
  }

  function OperatorsMeaning(eng: Engine, col: string, ops: seq<Entry>, row: Row): Tri
    decreases ops
  {
    if ops == [] then True
    else And3(OperatorsMeaning(eng, col, ops[..|ops| - 1], row), OperatorMeaning(eng, col, ops[|ops| - 1], row))
  }

  function OperatorMeaning(eng: Engine, col: string, e: Entry, row: Row): Tri
    decreases e
  {
    var a, v := ColumnOf(row, col), e.val;
    match OpOf(e.key)
    case Equals => EqualsMeaning(eng, a, v)
    case Negate =>
      if v.Obj? && v.entries != [] then Not3(OperatorsMeaning(eng, col, v.entries, row))
      else if v.Null? then Truth(!a.Null?)
      else Compare(eng, Ne, a, v)
    case InOp(negated) =>
      var m := MemberOf(eng, a, if v.List? then v.items else []);
      if negated then Not3(m) else m
    case Order(op) => Compare(eng, op, a, v)
    case Text(t) => if v.Str? then Compare(eng, Like, a, Str(LikePattern(t, v.s))) else Unknown
    case IsSet => if v.Bool? then Truth(v.b == !a.Null?) else Unknown
    case IsEmpty => if v.Bool? then Compare(eng, if v.b then Eq else Ne, a, Str("")) else Unknown
    case Unsupported => Unknown
    case NoOperator => Unknown
  }

  // ---------------------------------------------------------------- trees without any condition

  predicate HasField(es: seq<Entry>)
    decreases es
  {
    exists i :: 0 <= i < |es| && EntryHasField(es[i])
  }

  predicate EntryHasField(e: Entry)
    decreases e
  {
    match KindOf(e.key)
    case AndKey => ListHasField(e.val)
    case OrKey => ListHasField(e.val)
    case NotKey => e.val.Obj? && HasField(e.val.entries)
    case Column => true
  }

  predicate ListHasField(v: Value)
    decreases v
  {
    || (v.Obj? && HasField(v.entries))
    || (v.List? && exists i :: 0 <= i < |v.items| && v.items[i].Obj? && HasField(v.items[i].entries))
  }

  /** A tree is absent exactly when it holds no field condition at any depth. */
  lemma {:induction false} AbsentIffNoField(eng: Engine, es: seq<Entry>, row: Row)
    ensures Meaning(eng, es, row).None? <==> !HasField(es)
    decreases es
  {
    if es != [] {
      var init, last := es[..|es| - 1], es[|es| - 1];
      assert es == init + [last];
      AbsentIffNoField(eng, init, row);
      EntryAbsentIffNoField(eng, last, row);
      if HasField(init) {
        var i :| 0 <= i < |init| && EntryHasField(init[i]);
        assert EntryHasField(es[i]);
      }
      assert EntryHasField(last) ==> EntryHasField(es[|es| - 1]);
    }
  }

  lemma {:induction false} EntryAbsentIffNoField(eng: Engine, e: Entry, row: Row)
    ensures EntryMeaning(eng, e, row).None? <==> !EntryHasField(e)
    decreases e
  {
    if !KindOf(e.key).Column? {
      if e.val.Obj? {
        AbsentIffNoField(eng, e.val.entries, row);
      } else if e.val.List? {
        ListAbsentIffNoField(eng, e.val.items, row);
      }
      assert ConditionMeaning(eng, e.val, row).None? <==> !(e.val.Obj? && HasField(e.val.entries));
    }
  }

  lemma {:induction false} ListAbsentIffNoField(eng: Engine, cs: seq<Value>, row: Row)
    ensures AllMeaning(eng, cs, row).None? <==> !(exists i :: 0 <= i < |cs| && cs[i].Obj? && HasField(cs[i].entries))
    ensures AnyMeaning(eng, cs, row).None? <==> AllMeaning(eng, cs, row).None?
    decreases cs
  {
    if cs != [] {
      var init, last := cs[..|cs| - 1], cs[|cs| - 1];
      assert cs == init + [last];
      ListAbsentIffNoField(eng, init, row);
      if last.Obj? {
        AbsentIffNoField(eng, last.entries, row);
      }
      if i :| 0 <= i < |init| && init[i].Obj? && HasField(init[i].entries) {
        assert cs[i].Obj? && HasField(cs[i].entries);
      }
      if last.Obj? && HasField(last.entries) {
        assert cs[|cs| - 1].Obj? && HasField(cs[|cs| - 1].entries);
      }
    }
  }

  // ---------------------------------------------------------------- well-formed trees

  predicate WellFormed(es: seq<Entry>)
    decreases es
  {
    forall i :: 0 <= i < |es| ==> WellFormedEntry(es[i])
  }

  predicate WellFormedEntry(e: Entry)
    decreases e
  {
    match KindOf(e.key)
    case AndKey => WellFormedList(e.val)
    case OrKey => WellFormedList(e.val)
    case NotKey => WellFormedCondition(e.val)
    case Column =>
      && IsIdent(TrimSpace(e.key))
      && (IsOperatorObject(e.val) ==> WellFormedOps(e.val.entries))
  }

  predicate WellFormedList(v: Value)
    decreases v, 1
  {
    || v.Null?
    || WellFormedCondition(v)
    || (v.List? && forall i :: 0 <= i < |v.items| ==> WellFormedCondition(v.items[i]))
  }

  predicate WellFormedCondition(v: Value)
    decreases v, 0
  {
    v.Obj? && WellFormed(v.entries)
  }

  predicate WellFormedOps(ops: seq<Entry>)
    decreases ops
  {
    forall i :: 0 <= i < |ops| ==> WellFormedOp(ops[i])
  }

  predicate WellFormedOp(e: Entry)
    decreases e
  {
    match OpOf(e.key)
    case Equals => true
    case Negate => e.val.Obj? ==> WellFormedOps(e.val.entries)
    case InOp(_) => e.val.List? && e.val.items != []
    case Order(_) => true
    case Text(_) => e.val.Str?
    case IsSet => e.val.Bool?
    case IsEmpty => e.val.Bool?
    case Unsupported => false
    case NoOperator => false
  }

  /** The compiler accepts exactly the well-formed trees. */
  lemma {:induction false} AcceptsExactlyWellFormed(es: seq<Entry>, start: nat)
    ensures CompileWhere(es, start).Ok? <==> WellFormed(es)
    decreases es
  {
    if es != [] {
      var init, last := es[..|es| - 1], es[|es| - 1];
      AcceptsExactlyWellFormed(init, start);
      assert es == init + [last];
      if WhereParts(init, start).Ok? {
        EntryAccepted(last, WhereParts(init, start).value.next);
      }
    }
  }

  lemma {:induction false} EntryAccepted(e: Entry, start: nat)
    ensures CompileEntry(e, start).Ok? <==> WellFormedEntry(e)
    decreases e
  {
    if KindOf(e.key).Column? {
      if IsOperatorObject(e.val) && IsIdent(TrimSpace(e.key)) {
        OperatorsAccepted(TrimSpace(e.key), e.val.entries, start);
      }
    } else {
      if e.val.Obj? {
        AcceptsExactlyWellFormed(e.val.entries, start);
      } else if e.val.List? {
        ConditionsAccepted(e.val.items, start);
      }
      assert CompileCondition(e.val, start).Ok? <==> WellFormedCondition(e.val);
    }
  }

  lemma {:induction false} ConditionsAccepted(cs: seq<Value>, start: nat)
    ensures ConditionParts(cs, start).Ok? <==> forall i :: 0 <= i < |cs| ==> WellFormedCondition(cs[i])
    decreases cs
  {
    if cs != [] {
      var init, last := cs[..|cs| - 1], cs[|cs| - 1];
      ConditionsAccepted(init, start);
      assert cs == init + [last];
      if last.Obj? && ConditionParts(init, start).Ok? {
        AcceptsExactlyWellFormed(last.entries, ConditionParts(init, start).value.next);
      }
    }
  }

  lemma {:induction false} OperatorsAccepted(col: string, ops: seq<Entry>, start: nat)
    ensures CompileOperators(col, ops, start).Ok? <==> WellFormedOps(ops)
    decreases ops
  {
    if ops != [] {
      var init, last := ops[..|ops| - 1], ops[|ops| - 1];
      OperatorsAccepted(col, init, start);
      assert ops == init + [last];
      if OperatorParts(col, init, start).Ok? {
        OperatorAccepted(col, last, OperatorParts(col, init, start).value.next);
      }
    }
  }

  lemma {:induction false} OperatorAccepted(col: string, e: Entry, start: nat)
    ensures CompileOperator(col, e, start).Ok? <==> WellFormedOp(e)
    decreases e
  {
    if e.val.Obj? {
      OperatorsAccepted(col, e.val.entries, start);
      assert CompileNotField(col, e.val, start).Ok? <==> WellFormedOps(e.val.entries);
    }
  }

  // ---------------------------------------------------------------- the expression a tree denotes

  function Chain(es: seq<Entry>): seq<Expr>
    decreases es
  {
    if es == [] then [] else Chain(es[..|es| - 1]) + EntryChain(es[|es| - 1])
  }

  function EntryChain(e: Entry): seq<Expr>
    decreases e
  {
    match KindOf(e.key)
    case AndKey => Group(if e.val.List? then AllChain(e.val.items) else ConditionChain(e.val))
    case OrKey =>
      if e.val.List? then
        var alts := AltChains(e.val.items);
        if alts == [] then [] else [Any(alts)]
      else Group(ConditionChain(e.val))
    case NotKey =>
      var c := ConditionChain(e.val);
      if c == [] then [] else [Not(Any([Conj(c)]))]
    case Column =>
      var col := TrimSpace(e.key);
      if IsOperatorObject(e.val) then OpChain(col, e.val.entries) else [EqualsExpr(col, e.val)]
  }

  function Group(es: seq<Expr>): seq<Expr> {
    if es == [] then [] else [Any([Conj(es)])]
  }

  function ConditionChain(v: Value): seq<Expr>
    decreases v
  {
    if v.Obj? then Chain(v.entries) else []
  }

  function AllChain(cs: seq<Value>): seq<Expr>
    decreases cs
  {
    if cs == [] then [] else AllChain(cs[..|cs| - 1]) + ConditionChain(cs[|cs| - 1])
  }

  function AltChains(cs: seq<Value>): seq<Conj>
    decreases cs
  {
    if cs == [] then []
    else
      var c := ConditionChain(cs[|cs| - 1]);
      AltChains(cs[..|cs| - 1]) + (if c == [] then [] else [Conj(c)])
  }

  function EqualsExpr(col: string, v: Value): Expr {
    if v.Null? then IsNull(col) else Cmp(Eq, col, v)
  }

  function OpChain(col: string, ops: seq<Entry>): seq<Expr>
    decreases ops
  {
    if ops == [] then [] else OpChain(col, ops[..|ops| - 1]) + [OpExpr(col, ops[|ops| - 1])]
  }

  function OpExpr(col: string, e: Entry): Expr
    decreases e
  {
    var v := e.val;
    match OpOf(e.key)
    case Equals => EqualsExpr(col, v)
    case Negate =>
      if v.Obj? && v.entries != [] then Not(Any([Conj(OpChain(col, v.entries))]))
      else if v.Null? then NotNull(col)
      else Cmp(Ne, col, v)
    case InOp(negated) =>
      var vs := if v.List? then v.items else [];
      if negated then NotInList(col, vs) else InList(col, vs)
    case Order(op) => Cmp(op, col, v)
    case Text(t) => Cmp(Like, col, Str(LikePattern(t, if v.Str? then v.s else "")))
    case IsSet => if v == Bool(true) then NotNull(col) else IsNull(col)
    case IsEmpty => Cmp(if v == Bool(true) then Eq else Ne, col, Str(""))
    case Unsupported => IsNull(col)
    case NoOperator => IsNull(col)
  }

  // ---------------------------------------------------------------- that expression has the tree's meaning

  lemma {:induction false} EvalAllConcat(eng: Engine, a: seq<Expr>, b: seq<Expr>, row: Row)
    ensures EvalAll(eng, a + b, row) == And3(EvalAll(eng, a, row), EvalAll(eng, b, row))
    decreases |b|
  {
    if b == [] {
      assert a + b == a;
    } else {
      assert (a + b)[..|a + b| - 1] == a + b[..|b| - 1];
      EvalAllConcat(eng, a, b[..|b| - 1], row);
    }
  }

  lemma EvalOne(eng: Engine, e: Expr, row: Row)
    ensures EvalAll(eng, [e], row) == Eval(eng, e, row)
  {
    assert [e][..0] == [];
  }

  lemma EvalGroup(eng: Engine, es: seq<Expr>, row: Row)
    ensures Eval(eng, Any([Conj(es)]), row) == EvalAll(eng, es, row)
  {
    assert [Conj(es)][..0] == [];
    assert EvalAny(eng, [], row) == False;
  }

  function ChainMeaning(eng: Engine, es: seq<Expr>, row: Row): Option<Tri> {
    if es == [] then None else Some(EvalAll(eng, es, row))
  }

  lemma ChainMeaningConcat(eng: Engine, a: seq<Expr>, b: seq<Expr>, row: Row)
    ensures ChainMeaning(eng, a + b, row) == Both(ChainMeaning(eng, a, row), ChainMeaning(eng, b, row))
  {
    EvalAllConcat(eng, a, b, row);
    if a == [] { assert a + b == b; }
    if b == [] { assert a + b == a; }
  }

  lemma {:induction false} ChainMeans(eng: Engine, es: seq<Entry>, row: Row)
    requires WellFormed(es)
    ensures ChainMeaning(eng, Chain(es), row) == Meaning(eng, es, row)
    decreases es
  {
    if es != [] {
      var init, last := es[..|es| - 1], es[|es| - 1];
      ChainMeans(eng, init, row);
      EntryMeans(eng, last, row);
      ChainMeaningConcat(eng, Chain(init), EntryChain(last), row);
    }
  }

  lemma {:induction false} ConditionMeans(eng: Engine, v: Value, row: Row)
    requires v.Obj? ==> WellFormedCondition(v)
    ensures ChainMeaning(eng, ConditionChain(v), row) == ConditionMeaning(eng, v, row)
    decreases v
  {
    if v.Obj? {
      ChainMeans(eng, v.entries, row);
    }
  }

  lemma {:induction false} EntryMeans(eng: Engine, e: Entry, row: Row)
    requires WellFormedEntry(e)
    ensures ChainMeaning(eng, EntryChain(e), row) == EntryMeaning(eng, e, row)
    decreases e
  {
    var v := e.val;
    match KindOf(e.key)
    case AndKey =>
      assert WellFormedList(v);
      if v.List? {
        AllMeans(eng, v.items, row);
        GroupMeans(eng, AllChain(v.items), row);
      } else {
        ConditionMeans(eng, v, row);
        GroupMeans(eng, ConditionChain(v), row);
      }
    case OrKey =>
      assert WellFormedList(v);
      if v.List? {
        AltsMean(eng, v.items, row);
        var alts := AltChains(v.items);
        EvalOne(eng, Any(alts), row);
      } else {
        ConditionMeans(eng, v, row);
        GroupMeans(eng, ConditionChain(v), row);
      }
    case NotKey =>
      ConditionMeans(eng, v, row);
      var c := ConditionChain(v);
      EvalGroup(eng, c, row);
      EvalOne(eng, Not(Any([Conj(c)])), row);
    case Column =>
      var col := TrimSpace(e.key);
      if IsOperatorObject(v) {
        OpsMean(eng, col, v.entries, row);
      } else {
        EvalOne(eng, EqualsExpr(col, v), row);
      }
  }

  lemma GroupMeans(eng: Engine, es: seq<Expr>, row: Row)
    ensures ChainMeaning(eng, Group(es), row) == ChainMeaning(eng, es, row)
  {
    EvalGroup(eng, es, row);
    EvalOne(eng, Any([Conj(es)]), row);
  }

  lemma {:induction false} AllMeans(eng: Engine, cs: seq<Value>, row: Row)
    requires forall i :: 0 <= i < |cs| ==> WellFormedCondition(cs[i])
    ensures ChainMeaning(eng, AllChain(cs), row) == AllMeaning(eng, cs, row)
    decreases cs
  {
    if cs != [] {
      var init, last := cs[..|cs| - 1], cs[|cs| - 1];
      AllMeans(eng, init, row);
      ConditionMeans(eng, last, row);
      ChainMeaningConcat(eng, AllChain(init), ConditionChain(last), row);
    }
  }

  lemma {:induction false} EvalAnyAppend(eng: Engine, alts: seq<Conj>, c: Conj, row: Row)
    ensures EvalAny(eng, alts + [c], row) == Or3(EvalAny(eng, alts, row), EvalAll(eng, c.factors, row))
  {
    assert (alts + [c])[..|alts|] == alts;
  }

  function AltsMeaning(eng: Engine, alts: seq<Conj>, row: Row): Option<Tri> {
    if alts == [] then None else Some(EvalAny(eng, alts, row))
  }

  lemma {:induction false} AltStep(eng: Engine, alts: seq<Conj>, c: seq<Expr>, row: Row)
    ensures AltsMeaning(eng, alts + (if c == [] then [] else [Conj(c)]), row) ==
            Either(AltsMeaning(eng, alts, row), ChainMeaning(eng, c, row))
  {
    if c == [] {
      assert alts + [] == alts;
    } else {
      EvalAnyAppend(eng, alts, Conj(c), row);
    }
  }

  lemma {:induction false} AltsMean(eng: Engine, cs: seq<Value>, row: Row)
    requires forall i :: 0 <= i < |cs| ==> WellFormedCondition(cs[i])
    ensures AnyMeaning(eng, cs, row) == AltsMeaning(eng, AltChains(cs), row)
    decreases cs
  {
    if cs != [] {
      var init, last := cs[..|cs| - 1], cs[|cs| - 1];
      AltsMean(eng, init, row);
      ConditionMeans(eng, last, row);
      AltStep(eng, AltChains(init), ConditionChain(last), row);
    }
  }

  lemma {:induction false} OpsMean(eng: Engine, col: string, ops: seq<Entry>, row: Row)
    requires WellFormedOps(ops)
    ensures EvalAll(eng, OpChain(col, ops), row) == OperatorsMeaning(eng, col, ops, row)
    ensures |OpChain(col, ops)| == |ops|
    decreases ops
  {
    if ops != [] {
      var init, last := ops[..|ops| - 1], ops[|ops| - 1];
      OpsMean(eng, col, init, row);
      OpMeans(eng, col, last, row);
      EvalAllConcat(eng, OpChain(col, init), [OpExpr(col, last)], row);
      EvalOne(eng, OpExpr(col, last), row);
    }
  }

  lemma {:induction false} OpMeans(eng: Engine, col: string, e: Entry, row: Row)
    requires WellFormedOp(e)
    ensures Eval(eng, OpExpr(col, e), row) == OperatorMeaning(eng, col, e, row)
    decreases e
  {
    if OpOf(e.key).Negate? && e.val.Obj? && e.val.entries != [] {
      OpsMean(eng, col, e.val.entries, row);
      EvalGroup(eng, OpChain(col, e.val.entries), row);
    }
  }
}
