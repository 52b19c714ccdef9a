/** A filter with a column that the server does not take for a name: its tokens are no condition, however
    deep the column sits. */
module WhereRefused {
  import opened Strings
  import opened Sql
  import opened SqlText
  import opened Where
  import opened WhereMeaning
  import opened WhereParse
  import opened WhereNames

  // ---------------------------------------------------------------- tokens as the server takes them

  // A reserved word stands for a token that no condition has.
  function Taken(reserved: set<string>, t: Token): Token {
    match Relex(reserved, t)
    case Some(u) => u
    case None => Mark
  }

  function TakenAll(reserved: set<string>, ts: seq<Token>): seq<Token> {
    seq(|ts|, i requires 0 <= i < |ts| => Taken(reserved, ts[i]))
  }

  lemma {:induction false} RelexIsTaken(reserved: set<string>, ts: seq<Token>)
    requires RelexAll(reserved, ts).Some?
    ensures RelexAll(reserved, ts).value == TakenAll(reserved, ts)
  {
    if ts != [] {
      RelexIsTaken(reserved, ts[1..]);
      assert TakenAll(reserved, ts) == [Taken(reserved, ts[0])] + TakenAll(reserved, ts[1..]);
    }
  }

  // Binding touches placeholders, taking touches names.
  lemma {:induction false} BindTaken(reserved: set<string>, ts: seq<Token>, args: seq<Value>, k: nat)
    requires RelexAll(reserved, ts).Some?
    ensures Bind(TakenAll(reserved, ts), args, k) == TakenAll(reserved, Bind(ts, args, k))
  {
    if ts != [] {
      var u, rest := Taken(reserved, ts[0]), ts[1..];
      assert TakenAll(reserved, ts) == [u] + TakenAll(reserved, rest);
      assert ([u] + TakenAll(reserved, rest))[1..] == TakenAll(reserved, rest);
      BindTaken(reserved, rest, args, if ts[0].Mark? then k + 1 else k);
      assert ts[0].Ident? ==> !u.Ph? && !u.Mark?;
    }
  }

  // The tokens after binding, as the server takes them.
  function Seen(reserved: set<string>, ts: seq<Token>, all: seq<Value>): seq<Token> {
    TakenAll(reserved, Resolve(ts, all))
  }

  lemma SeenConcat(reserved: set<string>, a: seq<Token>, b: seq<Token>, all: seq<Value>)
    ensures Seen(reserved, a + b, all) == Seen(reserved, a, all) + Seen(reserved, b, all)
  {
  }

  lemma SeenNameless(reserved: set<string>, ts: seq<Token>, all: seq<Value>)
    requires forall i :: 0 <= i < |ts| ==> !ts[i].Ident? && !ts[i].Ph?
    ensures Seen(reserved, ts, all) == ts
  {
  }

  lemma SeenPlain(reserved: set<string>, ts: seq<Token>, all: seq<Value>)
    requires AllPlain(reserved, ts)
    ensures Seen(reserved, ts, all) == Resolve(ts, all)
  {
    forall i | 0 <= i < |ts| ensures Seen(reserved, ts, all)[i] == Resolve(ts, all)[i] {
      assert ts[i].Ident? ==> PlainName(reserved, ts[i].name);
    }
  }

  // ---------------------------------------------------------------- failing parses

  // Whatever follows, the tokens do not begin a conjunction, or a disjunction.
  ghost predicate FailsAnd(ts: seq<Token>) {
    forall rest :: ParseAnd(ts + rest) == None
  }

  ghost predicate FailsOr(ts: seq<Token>) {
    forall rest :: ParseOr(ts + rest) == None
  }

  lemma FailsAtOnce(ts: seq<Token>)
    requires ts != [] && !ts[0].Ident? && !ts[0].LP? && ts[0] != Kw(NOT)
    ensures FailsAnd(ts)
  {
    forall rest ensures ParseAnd(ts + rest) == None {
      assert (ts + rest)[0] == ts[0];
      assert ParsePrimary(ts + rest) == None;
      assert ParseFactor(ts + rest) == None;
    }
  }

  lemma FailsLonger(a: seq<Token>, b: seq<Token>)
    requires FailsAnd(a)
    ensures FailsAnd(a + b)
  {
    forall rest ensures ParseAnd((a + b) + rest) == None {
      assert (a + b) + rest == a + (b + rest);
    }
  }

  lemma FailsLongerOr(a: seq<Token>, b: seq<Token>)
    requires FailsOr(a)
    ensures FailsOr(a + b)
  {
    forall rest ensures ParseOr((a + b) + rest) == None {
      assert (a + b) + rest == a + (b + rest);
    }
  }

  lemma FailsAsAlternative(a: seq<Token>)
    requires FailsAnd(a)
    ensures FailsOr(a)
  {
    forall rest ensures ParseOr(a + rest) == None {
      assert ParseAnd(a + rest) == None;
    }
  }

  lemma AndFails(a: seq<Token>, x: seq<Expr>, b: seq<Token>)
    requires ReadsAnd(a, x) && FailsAnd(b)
    ensures FailsAnd(a + [Kw(AND)] + b)
  {
    forall rest ensures ParseAnd((a + [Kw(AND)] + b) + rest) == None {
      var more := [Kw(AND)] + b + rest;
      assert (a + [Kw(AND)] + b) + rest == a + more;
      assert more[1..] == b + rest;
      assert MoreAnd(x, more) == None;
    }
  }

  lemma OrFails(a: seq<Token>, x: seq<Conj>, b: seq<Token>)
    requires ReadsOr(a, x) && FailsOr(b)
    ensures FailsOr(a + [Kw(OR)] + b)
  {
    forall rest ensures ParseOr((a + [Kw(OR)] + b) + rest) == None {
      var more := [Kw(OR)] + b + rest;
      assert (a + [Kw(OR)] + b) + rest == a + more;
      assert more[1..] == b + rest;
      assert MoreOr(x, more) == None;
    }
  }

  lemma GroupFails(a: seq<Token>)
    requires FailsOr(a)
    ensures FailsAnd([LP] + a + [RP]) && FailsAnd([Kw(NOT), LP] + a + [RP])
  {
    forall rest
      ensures ParseAnd(([LP] + a + [RP]) + rest) == None
      ensures ParseAnd(([Kw(NOT), LP] + a + [RP]) + rest) == None
    {
      var ts := ([LP] + a + [RP]) + rest;
      assert ts[1..] == a + ([RP] + rest);
      assert ParsePrimary(ts) == None;
      assert ParseFactor(ts) == None;
      var negated := ([Kw(NOT), LP] + a + [RP]) + rest;
      assert negated[1..] == ts;
      assert ParseFactor(negated) == None;
    }
  }

  // One more part joined to a list whose front fails, or reads and is followed by a part that fails.
  lemma JoinFails(reserved: set<string>, p: Parts, f: Frag, sep: Keyword, all: seq<Value>)
    requires p.parts != [] && FailsAnd(Seen(reserved, Join(p.parts, sep), all))
    ensures FailsAnd(Seen(reserved, Join(p.Add(f).parts, sep), all))
  {
    if f.toks != [] {
      JoinAppend(p.parts, f.toks, sep);
      var j := Join(p.parts, sep);
      SeenConcat(reserved, j, [Kw(sep)] + f.toks, all);
      assert j + [Kw(sep)] + f.toks == j + ([Kw(sep)] + f.toks);
      FailsLonger(Seen(reserved, j, all), Seen(reserved, [Kw(sep)] + f.toks, all));
    }
  }

  lemma JoinFailsOr(reserved: set<string>, p: Parts, f: Frag, all: seq<Value>)
    requires p.parts != [] && FailsOr(Seen(reserved, Join(p.parts, OR), all))
    ensures FailsOr(Seen(reserved, Join(p.Add(f).parts, OR), all))
  {
    if f.toks != [] {
      JoinAppend(p.parts, f.toks, OR);
      var j := Join(p.parts, OR);
      SeenConcat(reserved, j, [Kw(OR)] + f.toks, all);
      assert j + [Kw(OR)] + f.toks == j + ([Kw(OR)] + f.toks);
      FailsLongerOr(Seen(reserved, j, all), Seen(reserved, [Kw(OR)] + f.toks, all));
    }
  }

  lemma SeenJoined(reserved: set<string>, j: seq<Token>, sep: Keyword, ts: seq<Token>, all: seq<Value>)
    ensures Seen(reserved, j + [Kw(sep)] + ts, all) == Seen(reserved, j, all) + [Kw(sep)] + Seen(reserved, ts, all)
  {
    SeenConcat(reserved, j + [Kw(sep)], ts, all);
    SeenConcat(reserved, j, [Kw(sep)], all);
    SeenNameless(reserved, [Kw(sep)], all);
  }

  lemma SeenWrapped(reserved: set<string>, pre: seq<Token>, ts: seq<Token>, all: seq<Value>)
    requires forall i :: 0 <= i < |pre| ==> !pre[i].Ident? && !pre[i].Ph?
    ensures Seen(reserved, pre + ts + [RP], all) == pre + Seen(reserved, ts, all) + [RP]
  {
    SeenConcat(reserved, pre + ts, [RP], all);
    SeenConcat(reserved, pre, ts, all);
    SeenNameless(reserved, pre, all);
    SeenNameless(reserved, [RP], all);
  }

  // ---------------------------------------------------------------- no condition, at any depth

  lemma {:induction false} WhereFails(reserved: set<string>, es: seq<Entry>, start: nat, all: seq<Value>)
    requires CompileWhere(es, start).Ok? && Window(all, start, CompileWhere(es, start).value.args)
    requires !NamesPlain(reserved, es)
    ensures FailsAnd(Seen(reserved, CompileWhere(es, start).value.toks, all))
    decreases es
  {
    var init, last := es[..|es| - 1], es[|es| - 1];
    var p := WhereParts(init, start).value;
    var f := CompileEntry(last, p.next).value;
    NamesLast(reserved, es);
    WhereSpelled(reserved, init, start);
    WhereNumbered(init, start);
    EntryNumbered(last, p.next);
    if f.toks != [] {
      WindowSplit(all, start, p.args, f.args);
    }
    if !NamesPlain(reserved, init) {
      WhereFails(reserved, init, start, all);
      JoinFails(reserved, p, f, AND, all);
    } else {
      EntrySpelled(reserved, last, p.next);
      EntryFails(reserved, last, p.next, all);
      if p.parts != [] {
        WhereParses(init, start, all);
      }
      LastFails(reserved, p, Chain(init), f, all);
    }
  }

  lemma LastFails(reserved: set<string>, p: Parts, x: seq<Expr>, f: Frag, all: seq<Value>)
    requires f.toks != [] && FailsAnd(Seen(reserved, f.toks, all)) && AllPlain(reserved, Join(p.parts, AND))
    requires p.parts != [] ==> ReadsAnd(Resolve(Join(p.parts, AND), all), x)
    ensures FailsAnd(Seen(reserved, Join(p.Add(f).parts, AND), all))
  {
    JoinAppend(p.parts, f.toks, AND);
    if p.parts != [] {
      var j := Join(p.parts, AND);
      SeenPlain(reserved, j, all);
      SeenJoined(reserved, j, AND, f.toks, all);
      AndFails(Seen(reserved, j, all), x, Seen(reserved, f.toks, all));
    }
  }

  lemma {:induction false} EntryFails(reserved: set<string>, e: Entry, start: nat, all: seq<Value>)
    requires CompileEntry(e, start).Ok? && Window(all, start, CompileEntry(e, start).value.args)
    requires !EntryPlain(reserved, e)
    ensures FailsAnd(Seen(reserved, CompileEntry(e, start).value.toks, all))
    decreases e
  {
    match KindOf(e.key)
    case AndKey => ListFails(reserved, AND, e.val, start, all);
    case OrKey => ListFails(reserved, OR, e.val, start, all);
    case NotKey =>
      assert CompileNot(e.val, start).Ok? && CompileCondition(e.val, start).Ok?;
      var f := CompileCondition(e.val, start).value;
      WhereSpelled(reserved, e.val.entries, start);
      WhereFails(reserved, e.val.entries, start, all);
      FailsAsAlternative(Seen(reserved, f.toks, all));
      GroupFails(Seen(reserved, f.toks, all));
      SeenWrapped(reserved, [Kw(NOT), LP], f.toks, all);
    case Column =>
      var col := TrimSpace(e.key);
      NotTheWordNot(reserved, e.key);
      if IsOperatorObject(e.val) {
        OperatorsFail(reserved, col, e.val.entries, start, all);
      } else {
        StartFails(reserved, col, EqualsFrag(col, e.val, start).toks, all);
      }
  }

  // The key NOT is no column.
  lemma NotTheWordNot(reserved: set<string>, key: string)
    requires KindOf(key) == Column
    ensures Classify(reserved, TrimSpace(key)) != Some(Kw(NOT))
  {
  }

  lemma StartFails(reserved: set<string>, col: string, ts: seq<Token>, all: seq<Value>)
    requires ts != [] && ts[0] == Ident(col) && !PlainName(reserved, col) && Classify(reserved, col) != Some(Kw(NOT))
    ensures FailsAnd(Seen(reserved, ts, all))
  {
    FailsAtOnce(Seen(reserved, ts, all));
  }

  lemma {:induction false} ListFails(reserved: set<string>, op: Keyword, v: Value, start: nat, all: seq<Value>)
    requires op == AND || op == OR
    requires CompileList(op, v, start).Ok? && Window(all, start, CompileList(op, v, start).value.args)
    requires !ListPlain(reserved, v)
    ensures FailsAnd(Seen(reserved, CompileList(op, v, start).value.toks, all))
    decreases v
  {
    if v.Obj? {
      var es := v.entries;
      var f := CompileWhere(es, start).value;
      assert CompileCondition(v, start) == Ok(f);
      WhereSpelled(reserved, es, start);
      WhereFails(reserved, es, start, all);
      assert Join(Parts([], [], start).Add(f).parts, op) == f.toks;
      FailsAsAlternative(Seen(reserved, f.toks, all));
      GroupFails(Seen(reserved, f.toks, all));
      SeenWrapped(reserved, [LP], f.toks, all);
    } else {
      var j := Join(ConditionParts(v.items, start).value.parts, op);
      ItemsSpelled(reserved, op, v.items, start);
      if op == AND {
        ConjunctionFails(reserved, v.items, start, all);
        FailsAsAlternative(Seen(reserved, j, all));
      } else {
        DisjunctionFails(reserved, v.items, start, all);
      }
      GroupFails(Seen(reserved, j, all));
      SeenWrapped(reserved, [LP], j, all);
    }
  }

  lemma {:induction false} ConjunctionFails(reserved: set<string>, cs: seq<Value>, start: nat, all: seq<Value>)
    requires ConditionParts(cs, start).Ok? && Window(all, start, ConditionParts(cs, start).value.args)
    requires !ItemsPlain(reserved, cs)
    ensures FailsAnd(Seen(reserved, Join(ConditionParts(cs, start).value.parts, AND), all))
    decreases cs
  {
    var init, last := cs[..|cs| - 1], cs[|cs| - 1];
    var p := ConditionParts(init, start).value;
    var f := CompileWhere(last.entries, p.next).value;
    ItemsLast(reserved, cs);
    ItemsSpelled(reserved, AND, init, start);
    ConditionsNumbered(AND, init, start);
    WhereNumbered(last.entries, p.next);
    if f.toks != [] {
      WindowSplit(all, start, p.args, f.args);
    }
    if !ItemsPlain(reserved, init) {
      ConjunctionFails(reserved, init, start, all);
      JoinFails(reserved, p, f, AND, all);
    } else {
      WhereSpelled(reserved, last.entries, p.next);
      WhereFails(reserved, last.entries, p.next, all);
      if p.parts != [] {
        ConjunctionParses(init, start, all);
      }
      LastFails(reserved, p, AllChain(init), f, all);
    }
  }

  lemma {:induction false} DisjunctionFails(reserved: set<string>, cs: seq<Value>, start: nat, all: seq<Value>)
    requires ConditionParts(cs, start).Ok? && Window(all, start, ConditionParts(cs, start).value.args)
    requires !ItemsPlain(reserved, cs)
    ensures FailsOr(Seen(reserved, Join(ConditionParts(cs, start).value.parts, OR), all))
    decreases cs
  {
    var init, last := cs[..|cs| - 1], cs[|cs| - 1];
    var p := ConditionParts(init, start).value;
    var f := CompileWhere(last.entries, p.next).value;
    ItemsLast(reserved, cs);
    ItemsSpelled(reserved, OR, init, start);
    ConditionsNumbered(OR, init, start);
    WhereNumbered(last.entries, p.next);
    if f.toks != [] {
      WindowSplit(all, start, p.args, f.args);
    }
    if !ItemsPlain(reserved, init) {
      DisjunctionFails(reserved, init, start, all);
      JoinFailsOr(reserved, p, f, all);
    } else {
      WhereSpelled(reserved, last.entries, p.next);
      WhereFails(reserved, last.entries, p.next, all);
      FailsAsAlternative(Seen(reserved, f.toks, all));
      if p.parts != [] {
        DisjunctionParses(init, start, all);
      }
      LastFailsOr(reserved, p, AltChains(init), f, all);
    }
  }

  lemma LastFailsOr(reserved: set<string>, p: Parts, x: seq<Conj>, f: Frag, all: seq<Value>)
    requires f.toks != [] && FailsOr(Seen(reserved, f.toks, all)) && AllPlain(reserved, Join(p.parts, OR))
    requires p.parts != [] ==> ReadsOr(Resolve(Join(p.parts, OR), all), x)
    ensures FailsOr(Seen(reserved, Join(p.Add(f).parts, OR), all))
  {
    JoinAppend(p.parts, f.toks, OR);
    if p.parts != [] {
      var j := Join(p.parts, OR);
      SeenPlain(reserved, j, all);
      SeenJoined(reserved, j, OR, f.toks, all);
      OrFails(Seen(reserved, j, all), x, Seen(reserved, f.toks, all));
    }
  }

  lemma {:induction false} OperatorsFail(reserved: set<string>, col: string, ops: seq<Entry>, start: nat, all: seq<Value>)
    requires CompileOperators(col, ops, start).Ok? && ops != []
    requires !PlainName(reserved, col) && Classify(reserved, col) != Some(Kw(NOT))
    ensures FailsAnd(Seen(reserved, CompileOperators(col, ops, start).value.toks, all))
    decreases ops
  {
    var init, last := ops[..|ops| - 1], ops[|ops| - 1];
    var p := OperatorParts(col, init, start).value;
    var f := CompileOperator(col, last, p.next).value;
    OperatorsNumbered(col, init, start);
    OperatorNumbered(col, last, p.next);
    if init == [] {
      OperatorFails(reserved, col, last, p.next, all);
      assert p.parts == [];
    } else {
      OperatorsFail(reserved, col, init, start, all);
      JoinFails(reserved, p, f, AND, all);
    }
  }

  lemma {:induction false} OperatorFails(reserved: set<string>, col: string, e: Entry, start: nat, all: seq<Value>)
    requires CompileOperator(col, e, start).Ok?
    requires !PlainName(reserved, col) && Classify(reserved, col) != Some(Kw(NOT))
    ensures FailsAnd(Seen(reserved, CompileOperator(col, e, start).value.toks, all))
    decreases e
  {
    if OpOf(e.key) == Negate && e.val.Obj? && e.val.entries != [] {
      var f := CompileOperators(col, e.val.entries, start).value;
      OperatorsFail(reserved, col, e.val.entries, start, all);
      FailsAsAlternative(Seen(reserved, f.toks, all));
      GroupFails(Seen(reserved, f.toks, all));
      SeenWrapped(reserved, [Kw(NOT), LP], f.toks, all);
    } else {
      StartFails(reserved, col, CompileOperator(col, e, start).value.toks, all);
    }
  }
}
