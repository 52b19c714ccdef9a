/** Printing then parsing: the compiled tokens, bound to their arguments, parse back to the
    expression the filter tree denotes although almost no parentheses are printed. */
module WhereParse {
  import opened Strings
  import opened Sql
  import opened Where
  import opened WhereMeaning

  // ---------------------------------------------------------------- numbering and emptiness

  // The placeholders of a fragment are start+1, start+2, ... from left to right, one per argument.
  predicate Numbers(f: Frag, start: nat) {
    && f.next == start + |f.args|
    && PhNums(f.toks) == UpTo(start, |f.args|)
    && NoMarks(f.toks)
  }

  predicate PartsNumbered(p: Parts, start: nat, sep: Keyword) {
    && Numbers(p.Joined(sep), start)
    && (forall i :: 0 <= i < |p.parts| ==> p.parts[i] != [])
    && (p.parts == [] <==> Join(p.parts, sep) == [])
  }

  lemma UpToConcat(start: nat, a: nat, b: nat)
    ensures UpTo(start, a) + UpTo(start + a, b) == UpTo(start, a + b)
  {
  }

  lemma JoinAppend(parts: seq<seq<Token>>, part: seq<Token>, sep: Keyword)
    ensures Join(parts + [part], sep) == if parts == [] then part else Join(parts, sep) + [Kw(sep)] + part
  {
    assert (parts + [part])[..|parts|] == parts;
  }

  lemma JoinNumbers(parts: seq<seq<Token>>, part: seq<Token>, sep: Keyword)
    ensures PhNums(Join(parts + [part], sep)) == PhNums(Join(parts, sep)) + PhNums(part)
  {
    JoinAppend(parts, part, sep);
    if parts != [] {
      PhNumsConcat(Join(parts, sep) + [Kw(sep)], part);
      PhNumsConcat(Join(parts, sep), [Kw(sep)]);
    }
  }

  lemma JoinUnmarked(parts: seq<seq<Token>>, part: seq<Token>, sep: Keyword)
    requires part != [] && NoMarks(part) && NoMarks(Join(parts, sep))
    ensures NoMarks(Join(parts + [part], sep)) && Join(parts + [part], sep) != []
  {
    JoinAppend(parts, part, sep);
  }

  lemma AddNumbered(p: Parts, f: Frag, start: nat, sep: Keyword)
    requires PartsNumbered(p, start, sep) && Numbers(f, p.next)
    ensures PartsNumbered(p.Add(f), start, sep)
    ensures p.Add(f).parts == [] <==> p.parts == [] && f.toks == []
  {
    if f.toks != [] {
      JoinNumbers(p.parts, f.toks, sep);
      JoinUnmarked(p.parts, f.toks, sep);
      UpToConcat(start, |p.args|, |f.args|);
    } else {
      assert |UpTo(p.next, |f.args|)| == 0;
    }
  }

  lemma WrapNumbered(pre: seq<Token>, f: Frag, start: nat)
    requires Numbers(f, start) && PhNums(pre) == [] && NoMarks(pre)
    ensures Numbers(Frag(pre + f.toks + [RP], f.args, f.next), start)
  {
    PhNumsConcat(pre + f.toks, [RP]);
    PhNumsConcat(pre, f.toks);
  }

  lemma {:induction false} NoPlaceholders(ts: seq<Token>)
    requires forall i :: 0 <= i < |ts| ==> !ts[i].Ph?
    ensures PhNums(ts) == []
  {
    if ts != [] {
      NoPlaceholders(ts[1..]);
    }
  }

  lemma LeafNumbered(col: string, op: CmpOp, v: Value, start: nat)
    ensures Numbers(CompareFrag(col, op, v, start), start)
    ensures Numbers(NullFrag(col, true, start), start) && Numbers(NullFrag(col, false, start), start)
    ensures Numbers(Frag([Ident(col), Op(op), Lit(v)], [], start), start)
  {
    var ts := [Ident(col), Op(op), Ph(start + 1)];
    assert ts == ts[..2] + [Ph(start + 1)];
    PhNumsConcat(ts[..2], [Ph(start + 1)]);
    NoPlaceholders(ts[..2]);
    assert [Ph(start + 1)][1..] == [];
    NoPlaceholders(NullFrag(col, true, start).toks);
    NoPlaceholders(NullFrag(col, false, start).toks);
    NoPlaceholders([Ident(col), Op(op), Lit(v)]);
  }

  lemma {:induction false} HoldersNumbered(start: nat, n: nat)
    ensures PhNums(Holders(start, n)) == UpTo(start, n) && NoMarks(Holders(start, n))
  {
    if n == 1 {
      assert PhNums([Ph(start + 1)]) == [start + 1] + PhNums([Ph(start + 1)][1..]);
    } else if n > 1 {
      HoldersNumbered(start, n - 1);
      PhNumsConcat(Holders(start, n - 1), [Comma, Ph(start + n)]);
      assert [Comma, Ph(start + n)][1..] == [Ph(start + n)];
      assert PhNums([Ph(start + n)]) == [start + n] + PhNums([Ph(start + n)][1..]);
      UpToConcat(start, n - 1, 1);
    }
  }

  /** Every compiled filter numbers its placeholders consecutively after `start`, one per
      argument, and is empty exactly when the tree holds no field condition at any depth. */
  lemma {:induction false} WhereNumbered(es: seq<Entry>, start: nat)
    requires CompileWhere(es, start).Ok?
    ensures Numbers(CompileWhere(es, start).value, start)
    ensures CompileWhere(es, start).value.toks == [] <==> Chain(es) == []
    ensures PartsNumbered(WhereParts(es, start).value, start, AND)
    decreases es
  {
    if es != [] {
      var init, last := es[..|es| - 1], es[|es| - 1];
      WhereNumbered(init, start);
      var p := WhereParts(init, start).value;
      EntryNumbered(last, p.next);
      AddNumbered(p, CompileEntry(last, p.next).value, start, AND);
    }
  }

  lemma {:induction false} EntryNumbered(e: Entry, start: nat)
    requires CompileEntry(e, start).Ok?
    ensures Numbers(CompileEntry(e, start).value, start)
    ensures CompileEntry(e, start).value.toks == [] <==> EntryChain(e) == []
    decreases e
  {
    match KindOf(e.key)
    case AndKey => ListNumbered(AND, e.val, start);
    case OrKey => ListNumbered(OR, e.val, start);
    case NotKey =>
      var f := CompileCondition(e.val, start).value;
      WhereNumbered(e.val.entries, start);
      WrapNumbered([Kw(NOT), LP], f, start);
    case Column =>
      var col := TrimSpace(e.key);
      if IsOperatorObject(e.val) {
        OperatorsNumbered(col, e.val.entries, start);
      } else {
        LeafNumbered(col, Eq, e.val, start);
      }
  }

  lemma {:induction false} ListNumbered(op: Keyword, v: Value, start: nat)
    requires CompileList(op, v, start).Ok?
    ensures Numbers(CompileList(op, v, start).value, start)
    ensures v.List? ==> (CompileList(op, v, start).value.toks == [] <==> AllChain(v.items) == [])
    ensures v.List? ==> (CompileList(op, v, start).value.toks == [] <==> AltChains(v.items) == [])
    ensures !v.List? ==> (CompileList(op, v, start).value.toks == [] <==> ConditionChain(v) == [])
    decreases v
  {
    var p0 := Parts([], [], start);
    assert PartsNumbered(p0, start, op);
    match v
    case Null =>
    case Obj(es) =>
      WhereNumbered(es, start);
      var f := CompileWhere(es, start).value;
      assert CompileCondition(v, start) == Ok(f);
      AddNumbered(p0, f, start, op);
      WrapNumbered([LP], p0.Add(f).Joined(op), start);
    case List(items) =>
      ConditionsNumbered(op, items, start);
      WrapNumbered([LP], ConditionParts(items, start).value.Joined(op), start);
  }

  lemma {:induction false} ConditionsNumbered(op: Keyword, cs: seq<Value>, start: nat)
    requires ConditionParts(cs, start).Ok?
    ensures PartsNumbered(ConditionParts(cs, start).value, start, op)
    ensures ConditionParts(cs, start).value.parts == [] <==> AllChain(cs) == []
    ensures ConditionParts(cs, start).value.parts == [] <==> AltChains(cs) == []
    decreases cs
  {
    if cs != [] {
      var init, last := cs[..|cs| - 1], cs[|cs| - 1];
      ConditionsNumbered(op, init, start);
      var p := ConditionParts(init, start).value;
      WhereNumbered(last.entries, p.next);
      AddNumbered(p, CompileWhere(last.entries, p.next).value, start, op);
    }
  }

  lemma {:induction false} OperatorsNumbered(col: string, ops: seq<Entry>, start: nat)
    requires CompileOperators(col, ops, start).Ok?
    ensures Numbers(CompileOperators(col, ops, start).value, start)
    ensures CompileOperators(col, ops, start).value.toks == [] <==> ops == []
    ensures PartsNumbered(OperatorParts(col, ops, start).value, start, AND)
    ensures OpChain(col, ops) == [] <==> ops == []
    decreases ops
  {
    if ops != [] {
      var init, last := ops[..|ops| - 1], ops[|ops| - 1];
      OperatorsNumbered(col, init, start);
      var p := OperatorParts(col, init, start).value;
      OperatorNumbered(col, last, p.next);
      AddNumbered(p, CompileOperator(col, last, p.next).value, start, AND);
    }
  }

  lemma InNumbered(col: string, negated: bool, items: seq<Value>, start: nat)
    ensures var op := if negated then [Kw(NOT), Kw(IN)] else [Kw(IN)];
            Numbers(Frag([Ident(col)] + op + [LP] + Holders(start, |items|) + [RP], items, start + |items|), start)
  {
    var op := if negated then [Kw(NOT), Kw(IN)] else [Kw(IN)];
    HoldersNumbered(start, |items|);
    NoPlaceholders([Ident(col)] + op + [LP]);
    WrapNumbered([Ident(col)] + op + [LP], Frag(Holders(start, |items|), items, start + |items|), start);
  }

  lemma {:induction false} NegateNumbered(col: string, v: Value, start: nat)
    requires CompileNotField(col, v, start).Ok?
    ensures Numbers(CompileNotField(col, v, start).value, start)
    ensures CompileNotField(col, v, start).value.toks != []
    decreases v, 0
  {
    if v.Obj? && v.entries != [] {
      OperatorsNumbered(col, v.entries, start);
      WrapNumbered([Kw(NOT), LP], CompileOperators(col, v.entries, start).value, start);
    } else {
      LeafNumbered(col, Ne, v, start);
    }
  }

  lemma {:induction false} OperatorNumbered(col: string, e: Entry, start: nat)
    requires CompileOperator(col, e, start).Ok?
    ensures Numbers(CompileOperator(col, e, start).value, start)
    ensures CompileOperator(col, e, start).value.toks != []
    decreases e
  {
    match OpOf(e.key)
    case Negate => NegateNumbered(col, e.val, start);
    case InOp(negated) => InNumbered(col, negated, e.val.items, start);
    case Equals => LeafNumbered(col, Eq, e.val, start);
    case Order(op) => LeafNumbered(col, op, e.val, start);
    case Text(t) => LeafNumbered(col, Like, Str(LikePattern(t, e.val.s)), start);
    case IsSet => LeafNumbered(col, Eq, e.val, start);
    case IsEmpty => LeafNumbered(col, if e.val.b then Eq else Ne, Str(""), start);
  }

  // ---------------------------------------------------------------- composing parses

  // `ts` reads as the factors `es` of a conjunction, whatever follows it.
  ghost predicate ReadsAnd(ts: seq<Token>, es: seq<Expr>) {
    forall rest :: ParseAnd(ts + rest) == MoreAnd(es, rest)
  }

  // `ts` reads as the alternatives `alts`, provided it is not followed by AND.
  ghost predicate ReadsOr(ts: seq<Token>, alts: seq<Conj>) {
    forall rest | !Starts(rest, Kw(AND)) :: ParseOr(ts + rest) == MoreOr(alts, rest)
  }

  lemma ReadFactor(ts: seq<Token>, e: Expr)
    requires forall rest :: ParseFactor(ts + rest) == Some((e, rest))
    ensures ReadsAnd(ts, [e])
  {
  }

  lemma ReadPredicate(ts: seq<Token>, e: Expr)
    requires ts != [] && ts[0].Ident?
    requires forall rest :: ParsePredicate(ts + rest) == Some((e, rest))
    ensures ReadsAnd(ts, [e])
  {
    forall rest ensures ParseFactor(ts + rest) == Some((e, rest)) {
      assert (ts + rest)[0] == ts[0];
      assert ParsePrimary(ts + rest) == Some((e, rest));
    }
    ReadFactor(ts, e);
  }

  lemma AndThen(a: seq<Token>, x: seq<Expr>, b: seq<Token>, y: seq<Expr>)
    requires ReadsAnd(a, x) && ReadsAnd(b, y)
    ensures ReadsAnd(a + [Kw(AND)] + b, x + y)
  {
    forall rest ensures ParseAnd((a + [Kw(AND)] + b) + rest) == MoreAnd(x + y, rest) {
      var more := [Kw(AND)] + b + rest;
      assert (a + [Kw(AND)] + b) + rest == a + more;
      assert more[1..] == b + rest;
      assert MoreAnd(x, more) == match ParseAnd(b + rest)
                                 case None => None
                                 case Some((fs, r)) => Some((x + fs, r));
      if Starts(rest, Kw(AND)) {
        match ParseAnd(rest[1..])
        case None =>
        case Some((z, _)) => assert x + (y + z) == (x + y) + z;
      }
    }
  }

  // A conjunction may stand bare in an OR list because nothing after it starts with AND.
  lemma Alternative(a: seq<Token>, x: seq<Expr>)
    requires ReadsAnd(a, x)
    ensures ReadsOr(a, [Conj(x)])
  {
    forall rest | !Starts(rest, Kw(AND)) ensures ParseOr(a + rest) == MoreOr([Conj(x)], rest) {
      assert ParseAnd(a + rest) == MoreAnd(x, rest) == Some((x, rest));
    }
  }

  lemma OrThen(a: seq<Token>, x: seq<Conj>, b: seq<Token>, y: seq<Conj>)
    requires ReadsOr(a, x) && ReadsOr(b, y)
    ensures ReadsOr(a + [Kw(OR)] + b, x + y)
  {
    forall rest | !Starts(rest, Kw(AND))
      ensures ParseOr((a + [Kw(OR)] + b) + rest) == MoreOr(x + y, rest)
    {
      var more := [Kw(OR)] + b + rest;
      assert (a + [Kw(OR)] + b) + rest == a + more;
      assert more[1..] == b + rest;
      assert MoreOr(x, more) == match ParseOr(b + rest)
                                case None => None
                                case Some((fs, r)) => Some((x + fs, r));
      if Starts(rest, Kw(OR)) {
        match ParseOr(rest[1..])
        case None =>
        case Some((z, _)) => assert x + (y + z) == (x + y) + z;
      }
    }
  }

  lemma Grouped(a: seq<Token>, alts: seq<Conj>)
    requires ReadsOr(a, alts)
    ensures ReadsAnd([LP] + a + [RP], [Any(alts)])
    ensures ReadsAnd([Kw(NOT), LP] + a + [RP], [Not(Any(alts))])
  {
    forall rest
      ensures ParseFactor(([LP] + a + [RP]) + rest) == Some((Any(alts), rest))
      ensures ParseFactor(([Kw(NOT), LP] + a + [RP]) + rest) == Some((Not(Any(alts)), rest))
    {
      var ts := ([LP] + a + [RP]) + rest;
      assert ts[1..] == a + ([RP] + rest);
      assert ParseOr(ts[1..]) == MoreOr(alts, [RP] + rest) == Some((alts, [RP] + rest));
      assert ([RP] + rest)[1..] == rest;
      assert ParsePrimary(ts) == Some((Any(alts), rest));
      assert (([Kw(NOT), LP] + a + [RP]) + rest)[1..] == ts;
    }
    ReadFactor([LP] + a + [RP], Any(alts));
    ReadFactor([Kw(NOT), LP] + a + [RP], Not(Any(alts)));
  }

  // The arguments of a fragment sit in the whole argument list right after `start`.
  predicate Window(all: seq<Value>, start: nat, args: seq<Value>) {
    start + |args| <= |all| && all[start..start + |args|] == args
  }

  lemma WindowSplit(all: seq<Value>, start: nat, a: seq<Value>, b: seq<Value>)
    requires Window(all, start, a + b)
    ensures Window(all, start, a) && Window(all, start + |a|, b)
  {
    var w := all[start..start + |a + b|];
    assert a == w[..|a|] && b == w[|a|..];
  }

  lemma ResolveJoin(a: seq<Token>, sep: seq<Token>, b: seq<Token>, all: seq<Value>)
    ensures Resolve(a + sep + b, all) == Resolve(a, all) + Resolve(sep, all) + Resolve(b, all)
  {
  }

  lemma ResolveWrapped(f: seq<Token>, all: seq<Value>)
    ensures Resolve([LP] + f + [RP], all) == [LP] + Resolve(f, all) + [RP]
    ensures Resolve([Kw(NOT), LP] + f + [RP], all) == [Kw(NOT), LP] + Resolve(f, all) + [RP]
  {
  }

  // One more part of a list joined with AND.
  lemma AndAppend(parts: seq<seq<Token>>, x: seq<Expr>, part: seq<Token>, y: seq<Expr>, all: seq<Value>)
    requires if parts == [] then x == [] else ReadsAnd(Resolve(Join(parts, AND), all), x)
    requires ReadsAnd(Resolve(part, all), y)
    ensures ReadsAnd(Resolve(Join(parts + [part], AND), all), x + y)
  {
    JoinAppend(parts, part, AND);
    if parts == [] {
      assert x + y == y;
    } else {
      ResolveJoin(Join(parts, AND), [Kw(AND)], part, all);
      assert Resolve([Kw(AND)], all) == [Kw(AND)];
      AndThen(Resolve(Join(parts, AND), all), x, Resolve(part, all), y);
    }
  }

  lemma OrAppend(parts: seq<seq<Token>>, x: seq<Conj>, part: seq<Token>, y: seq<Expr>, all: seq<Value>)
    requires if parts == [] then x == [] else ReadsOr(Resolve(Join(parts, OR), all), x)
    requires ReadsAnd(Resolve(part, all), y)
    ensures ReadsOr(Resolve(Join(parts + [part], OR), all), x + [Conj(y)])
  {
    JoinAppend(parts, part, OR);
    Alternative(Resolve(part, all), y);
    if parts == [] {
      assert x + [Conj(y)] == [Conj(y)];
    } else {
      ResolveJoin(Join(parts, OR), [Kw(OR)], part, all);
      assert Resolve([Kw(OR)], all) == [Kw(OR)];
      OrThen(Resolve(Join(parts, OR), all), x, Resolve(part, all), [Conj(y)]);
    }
  }

  // ---------------------------------------------------------------- compiled text parses back

  lemma {:induction false} WhereParses(es: seq<Entry>, start: nat, all: seq<Value>)
    requires CompileWhere(es, start).Ok? && Window(all, start, CompileWhere(es, start).value.args)
    requires Chain(es) != []
    ensures ReadsAnd(Resolve(CompileWhere(es, start).value.toks, all), Chain(es))
    decreases es
  {
    var init, last := es[..|es| - 1], es[|es| - 1];
    var p := WhereParts(init, start).value;
    var f := CompileEntry(last, p.next).value;
    WhereNumbered(init, start);
    EntryNumbered(last, p.next);
    if f.toks == [] {
      assert Chain(es) == Chain(init);
      WhereParses(init, start, all);
    } else {
      WindowSplit(all, start, p.args, f.args);
      EntryParses(last, p.next, all);
      if p.parts != [] {
        WhereParses(init, start, all);
      }
      AndAppend(p.parts, Chain(init), f.toks, EntryChain(last), all);
    }
  }

  lemma {:induction false} EntryParses(e: Entry, start: nat, all: seq<Value>)
    requires CompileEntry(e, start).Ok? && Window(all, start, CompileEntry(e, start).value.args)
    requires EntryChain(e) != []
    ensures ReadsAnd(Resolve(CompileEntry(e, start).value.toks, all), EntryChain(e))
    decreases e
  {
    match KindOf(e.key)
    case AndKey => ListParses(AND, e.val, start, all);
    case OrKey => ListParses(OR, e.val, start, all);
    case NotKey =>
      var es := e.val.entries;
      assert CompileNot(e.val, start).Ok? && CompileCondition(e.val, start) == CompileWhere(es, start);
      var f := CompileWhere(es, start).value;
      WhereNumbered(es, start);
      WhereParses(es, start, all);
      ResolveWrapped(f.toks, all);
      Alternative(Resolve(f.toks, all), Chain(es));
      Grouped(Resolve(f.toks, all), [Conj(Chain(es))]);
    case Column =>
      var col := TrimSpace(e.key);
      if IsOperatorObject(e.val) {
        OperatorsParse(col, e.val.entries, start, all);
      } else {
        EqualsParses(col, e.val, start, all);
      }
  }

  // The chain an AND or OR list denotes.
  function ListChain(op: Keyword, v: Value): seq<Expr> {
    if op == OR && v.List? then
      if AltChains(v.items) == [] then [] else [Any(AltChains(v.items))]
    else Group(if v.List? then AllChain(v.items) else ConditionChain(v))
  }

  // An AND or OR over one condition, not in a list.
  lemma {:induction false} SingleParses(op: Keyword, v: Value, start: nat, all: seq<Value>)
    requires v.Obj? && CompileList(op, v, start).Ok? && Window(all, start, CompileList(op, v, start).value.args)
    requires ListChain(op, v) != []
    ensures ReadsAnd(Resolve(CompileList(op, v, start).value.toks, all), ListChain(op, v))
    decreases v, 0
  {
    var es := v.entries;
    var f := CompileWhere(es, start).value;
    assert CompileCondition(v, start) == Ok(f);
    WhereNumbered(es, start);
    WhereParses(es, start, all);
    assert Parts([], [], start).Add(f).parts == [f.toks];
    ResolveWrapped(f.toks, all);
    Alternative(Resolve(f.toks, all), Chain(es));
    Grouped(Resolve(f.toks, all), [Conj(Chain(es))]);
  }

  lemma {:induction false} ListParses(op: Keyword, v: Value, start: nat, all: seq<Value>)
    requires op == AND || op == OR
    requires CompileList(op, v, start).Ok? && Window(all, start, CompileList(op, v, start).value.args)
    requires ListChain(op, v) != []
    ensures ReadsAnd(Resolve(CompileList(op, v, start).value.toks, all), ListChain(op, v))
    decreases v
  {
    if v.Obj? {
      SingleParses(op, v, start, all);
    } else {
      var p := ConditionParts(v.items, start).value;
      var j := Join(p.parts, op);
      ConditionsNumbered(op, v.items, start);
      ResolveWrapped(j, all);
      if op == AND {
        ConjunctionParses(v.items, start, all);
        Alternative(Resolve(j, all), AllChain(v.items));
        Grouped(Resolve(j, all), [Conj(AllChain(v.items))]);
      } else {
        DisjunctionParses(v.items, start, all);
        Grouped(Resolve(j, all), AltChains(v.items));
      }
    }
  }

  lemma {:induction false} ConjunctionParses(cs: seq<Value>, start: nat, all: seq<Value>)
    requires ConditionParts(cs, start).Ok? && Window(all, start, ConditionParts(cs, start).value.args)
    requires AllChain(cs) != []
    ensures ReadsAnd(Resolve(Join(ConditionParts(cs, start).value.parts, AND), all), AllChain(cs))
    decreases cs
  {
    var init, last := cs[..|cs| - 1], cs[|cs| - 1];
    var p := ConditionParts(init, start).value;
    var f := CompileWhere(last.entries, p.next).value;
    ConditionsNumbered(AND, init, start);
    WhereNumbered(last.entries, p.next);
    if f.toks == [] {
      assert AllChain(cs) == AllChain(init);
      ConjunctionParses(init, start, all);
    } else {
      WindowSplit(all, start, p.args, f.args);
      WhereParses(last.entries, p.next, all);
      if p.parts != [] {
        ConjunctionParses(init, start, all);
      }
      AndAppend(p.parts, AllChain(init), f.toks, Chain(last.entries), all);
    }
  }

  lemma {:induction false} DisjunctionParses(cs: seq<Value>, start: nat, all: seq<Value>)
    requires ConditionParts(cs, start).Ok? && Window(all, start, ConditionParts(cs, start).value.args)
    requires AltChains(cs) != []
    ensures ReadsOr(Resolve(Join(ConditionParts(cs, start).value.parts, OR), all), AltChains(cs))
    decreases cs
  {
    var init, last := cs[..|cs| - 1], cs[|cs| - 1];
    var p := ConditionParts(init, start).value;
    var f := CompileWhere(last.entries, p.next).value;
    ConditionsNumbered(OR, init, start);
    WhereNumbered(last.entries, p.next);
    if f.toks == [] {
      assert AltChains(cs) == AltChains(init);
      DisjunctionParses(init, start, all);
    } else {
      WindowSplit(all, start, p.args, f.args);
      WhereParses(last.entries, p.next, all);
      if p.parts != [] {
        DisjunctionParses(init, start, all);
      }
      OrAppend(p.parts, AltChains(init), f.toks, Chain(last.entries), all);
    }
  }

  lemma {:induction false} OperatorsParse(col: string, ops: seq<Entry>, start: nat, all: seq<Value>)
    requires CompileOperators(col, ops, start).Ok? && Window(all, start, CompileOperators(col, ops, start).value.args)
    requires ops != []
    ensures ReadsAnd(Resolve(CompileOperators(col, ops, start).value.toks, all), OpChain(col, ops))
    decreases ops
  {
    var init, last := ops[..|ops| - 1], ops[|ops| - 1];
    var p := OperatorParts(col, init, start).value;
    var f := CompileOperator(col, last, p.next).value;
    OperatorsNumbered(col, init, start);
    WindowSplit(all, start, p.args, f.args);
    OperatorParses(col, last, p.next, all);
    if p.parts != [] {
      OperatorsParse(col, init, start, all);
    }
    AndAppend(p.parts, OpChain(col, init), f.toks, [OpExpr(col, last)], all);
  }

  lemma {:induction false} OperatorParses(col: string, e: Entry, start: nat, all: seq<Value>)
    requires CompileOperator(col, e, start).Ok? && Window(all, start, CompileOperator(col, e, start).value.args)
    ensures ReadsAnd(Resolve(CompileOperator(col, e, start).value.toks, all), [OpExpr(col, e)])
    decreases e
  {
    match OpOf(e.key)
    case Equals => EqualsParses(col, e.val, start, all);
    case Negate =>
      if e.val.Obj? && e.val.entries != [] {
        var f := CompileOperators(col, e.val.entries, start).value;
        OperatorsParse(col, e.val.entries, start, all);
        ResolveWrapped(f.toks, all);
        Alternative(Resolve(f.toks, all), OpChain(col, e.val.entries));
        Grouped(Resolve(f.toks, all), [Conj(OpChain(col, e.val.entries))]);
      } else if e.val.Null? {
        NullParses(col, false, start, all);
      } else {
        CompareParses(col, Ne, e.val, start, all);
      }
    case InOp(negated) => InParses(col, e.val.items, negated, start, all);
    case Order(op) => CompareParses(col, op, e.val, start, all);
    case Text(t) => CompareParses(col, Like, Str(LikePattern(t, e.val.s)), start, all);
    case IsSet => NullParses(col, !e.val.b, start, all);
    case IsEmpty => ComparisonParses([Ident(col), Op(if e.val.b then Eq else Ne), Lit(Str(""))], all);
  }

  lemma ComparisonParses(ts: seq<Token>, all: seq<Value>)
    requires |ts| == 3 && ts[0].Ident? && ts[1].Op? && ResolveToken(ts[2], all).Lit?
    ensures ReadsAnd(Resolve(ts, all), [Cmp(ts[1].op, ts[0].name, ResolveToken(ts[2], all).v)])
  {
    var e := Cmp(ts[1].op, ts[0].name, ResolveToken(ts[2], all).v);
    forall rest ensures ParsePredicate(Resolve(ts, all) + rest) == Some((e, rest)) {
      assert (Resolve(ts, all) + rest)[3..] == rest;
    }
    ReadPredicate(Resolve(ts, all), e);
  }

  lemma CompareParses(col: string, op: CmpOp, v: Value, start: nat, all: seq<Value>)
    requires Window(all, start, [v])
    ensures ReadsAnd(Resolve(CompareFrag(col, op, v, start).toks, all), [Cmp(op, col, v)])
  {
    assert all[start] == all[start..start + 1][0] == v;
    ComparisonParses(CompareFrag(col, op, v, start).toks, all);
  }

  lemma NullParses(col: string, isNull: bool, start: nat, all: seq<Value>)
    ensures ReadsAnd(Resolve(NullFrag(col, isNull, start).toks, all), [if isNull then IsNull(col) else NotNull(col)])
  {
    var ts := NullFrag(col, isNull, start).toks;
    var e := if isNull then IsNull(col) else NotNull(col);
    assert Resolve(ts, all) == ts;
    forall rest ensures ParsePredicate(ts + rest) == Some((e, rest)) {
      assert (ts + rest)[|ts|..] == rest;
      if !isNull {
        assert (ts + rest)[3..][0] == Kw(NULL);
      }
    }
    ReadPredicate(ts, e);
  }

  lemma EqualsParses(col: string, v: Value, start: nat, all: seq<Value>)
    requires Window(all, start, EqualsFrag(col, v, start).args)
    ensures ReadsAnd(Resolve(EqualsFrag(col, v, start).toks, all), [EqualsExpr(col, v)])
  {
    if v.Null? {
      NullParses(col, true, start, all);
    } else {
      CompareParses(col, Eq, v, start, all);
    }
  }

  lemma InParses(col: string, vs: seq<Value>, negated: bool, start: nat, all: seq<Value>)
    requires vs != [] && Window(all, start, vs)
    ensures ReadsAnd(Resolve(InFrag(col, List(vs), negated, start).value.toks, all),
                     [if negated then NotInList(col, vs) else InList(col, vs)])
  {
    var pre := if negated then [Ident(col), Kw(NOT), Kw(IN), LP] else [Ident(col), Kw(IN), LP];
    var h := Holders(start, |vs|);
    assert InFrag(col, List(vs), negated, start).value.toks == pre + h + [RP];
    ResolveJoin(pre, h, [RP], all);
    assert Resolve(pre, all) == pre && Resolve([RP], all) == [RP];
    var e := if negated then NotInList(col, vs) else InList(col, vs);
    var ts := pre + Resolve(h, all) + [RP];
    forall rest ensures ParsePredicate(ts + rest) == Some((e, rest)) {
      HoldersParse(start, vs, |vs|, all, [RP] + rest);
      assert vs[..|vs|] == vs;
      InPredicate(col, vs, negated, Resolve(h, all), rest);
    }
    ReadPredicate(ts, e);
  }

  lemma InPredicate(col: string, vs: seq<Value>, negated: bool, h: seq<Token>, rest: seq<Token>)
    requires ParseValues(h + ([RP] + rest)) == Some((vs, [RP] + rest))
    ensures negated ==> ParsePredicate([Ident(col), Kw(NOT), Kw(IN), LP] + h + [RP] + rest) == Some((NotInList(col, vs), rest))
    ensures !negated ==> ParsePredicate([Ident(col), Kw(IN), LP] + h + [RP] + rest) == Some((InList(col, vs), rest))
  {
    assert ([RP] + rest)[1..] == rest;
    assert ParseList(h + ([RP] + rest)) == Some((vs, rest));
    if negated {
      var ts := [Ident(col), Kw(NOT), Kw(IN), LP] + h + [RP] + rest;
      assert ts[4..] == h + ([RP] + rest) && ts[3..][0] == LP;
    } else {
      var ts := [Ident(col), Kw(IN), LP] + h + [RP] + rest;
      assert ts[3..] == h + ([RP] + rest);
    }
  }

  // The values read so far, with those that follow a comma.
  function MoreValues(vs: seq<Value>, tail: seq<Token>): Option<(seq<Value>, seq<Token>)> {
    if !Starts(tail, Comma) then Some((vs, tail))
    else match ParseValues(tail[1..])
      case None => None
      case Some((ws, rest)) => Some((vs + ws, rest))
  }

  lemma OneValue(v: Value, tail: seq<Token>)
    ensures ParseValues([Lit(v)] + tail) == MoreValues([v], tail)
  {
    var ts := [Lit(v)] + tail;
    assert ts[1..] == tail;
    if Starts(tail, Comma) {
      assert ts[2..] == tail[1..];
    }
  }

  lemma NextValue(vs: seq<Value>, v: Value, tail: seq<Token>)
    ensures MoreValues(vs, [Comma] + ([Lit(v)] + tail)) == MoreValues(vs + [v], tail)
  {
    assert ([Comma] + ([Lit(v)] + tail))[1..] == [Lit(v)] + tail;
    OneValue(v, tail);
    if Starts(tail, Comma) {
      match ParseValues(tail[1..])
      case None =>
      case Some((ws, _)) => assert vs + ([v] + ws) == vs + [v] + ws;
    }
  }

  lemma HoldersLast(start: nat, n: nat, all: seq<Value>, tail: seq<Token>)
    requires n >= 1 && start + n <= |all|
    ensures var last := [Lit(all[start + n - 1])] + tail;
            Resolve(Holders(start, n), all) + tail ==
            if n == 1 then last else Resolve(Holders(start, n - 1), all) + ([Comma] + last)
  {
    if n > 1 {
      ResolveConcat(Holders(start, n - 1), [Comma, Ph(start + n)], all);
      assert Resolve([Comma, Ph(start + n)], all) == [Comma, Lit(all[start + n - 1])];
    }
  }

  // The first n holders followed by `tail`, read from the left.
  lemma {:induction false} HoldersParse(start: nat, vs: seq<Value>, n: nat, all: seq<Value>, tail: seq<Token>)
    requires 0 < n <= |vs| && Window(all, start, vs)
    ensures ParseValues(Resolve(Holders(start, n), all) + tail) == MoreValues(vs[..n], tail)
  {
    var v := vs[n - 1];
    assert all[start + n - 1] == all[start..start + |vs|][n - 1] == v;
    HoldersLast(start, n, all, tail);
    assert vs[..n] == vs[..n - 1] + [v];
    if n == 1 {
      assert vs[..n] == [v];
      OneValue(v, tail);
    } else {
      HoldersParse(start, vs, n - 1, all, [Comma] + ([Lit(v)] + tail));
      NextValue(vs[..n - 1], v, tail);
    }
  }

  // ---------------------------------------------------------------- the main theorem

  function ParseCondition(ts: seq<Token>): Option<seq<Conj>> {
    match ParseOr(ts)
    case None => None
    case Some((alts, rest)) => if rest == [] then Some(alts) else None
  }

  /** For every filter tree the compiler accepts, every dialect, engine and row: the tokens it
      sends, bound on the server and parsed with NOT > AND > OR, has the tree's own meaning;
      and there are none, without arguments, exactly when no field condition occurs at any depth. */
  lemma CompiledTokensMeanTree(d: Dialect, eng: Engine, es: seq<Entry>, row: Row)
    requires WellFormed(es)
    ensures CompileWhere(es, 0).Ok?
    ensures var f := CompileWhere(es, 0).value;
            && Numbers(f, 0)
            && (f.toks == [] <==> !HasField(es))
            && if !HasField(es) then f == Frag([], [], 0)
            else
              var parsed := ParseCondition(Bind(Emit(d, f.toks), f.args, 0));
              parsed.Some? && Some(EvalAny(eng, parsed.value, row)) == Meaning(eng, es, row)
  {
    AcceptsExactlyWellFormed(es, 0);
    var f := CompileWhere(es, 0).value;
    WhereNumbered(es, 0);
    ChainMeans(eng, es, row);
    AbsentIffNoField(eng, es, row);
    if Chain(es) == [] {
      assert |UpTo(0, |f.args|)| == 0;
    } else {
      BothDialectsBindAlike(d, f.toks, f.args, 0, |f.args|);
      var ts := Resolve(f.toks, f.args);
      WhereParses(es, 0, f.args);
      Alternative(ts, Chain(es));
      assert ts + [] == ts;
      assert ParseOr(ts) == MoreOr([Conj(Chain(es))], []);
      EvalGroup(eng, Chain(es), row);
    }
  }
}
