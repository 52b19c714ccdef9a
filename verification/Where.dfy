/** The where-compiler of orm/table.go: a filter tree becomes SQL tokens, an argument list
    and a running placeholder counter.  The functions specify; the methods are the loops. */
module Where {
  import opened Strings
  import opened Sql

  // ---------------------------------------------------------------- keys

  datatype KeyKind = AndKey | OrKey | NotKey | Column

  function KindOf(key: string): KeyKind {
    var up := ToUpper(TrimSpace(key));
    if up == "AND" then AndKey
    else if up == "OR" then OrKey
    else if up == "NOT" then NotKey
    else Column
  }

  datatype TextOp = Contains | StartsWith | EndsWith

  datatype OpKind =
    | Equals | Negate | InOp(negated: bool) | Order(cmp: CmpOp) | Text(text: TextOp)
    | IsSet | IsEmpty | Unsupported | NoOperator

  function OpOf(key: string): OpKind {
    OpOfWord(ToLower(TrimSpace(key)))
  }

  function OpOfWord(op: string): OpKind {
    if op == "equals" || op == "is" then Equals
    else if op == "not" || op == "isnot" then Negate
    else if op == "in" then InOp(false)
    else if op == "notin" then InOp(true)
    else if op == "lt" then Order(Lt)
    else if op == "lte" then Order(Le)
    else if op == "gt" then Order(Gt)
    else if op == "gte" then Order(Ge)
    else if op == "contains" then Text(Contains)
    else if op == "startswith" then Text(StartsWith)
    else if op == "endswith" then Text(EndsWith)
    else if op == "isset" then IsSet
    else if op == "isempty" then IsEmpty
    else if op in ["some", "every", "none", "has", "hasevery", "hassome"] then Unsupported
    else NoOperator
  }

  predicate ContainsAnyOperatorKey(ops: seq<Entry>) {
    exists i :: 0 <= i < |ops| && OpOf(ops[i].key) != NoOperator
  }

  // The test in buildFieldExpr that decides between an operator object and a plain value.
  predicate IsOperatorObject(v: Value) {
    v.Obj? && ContainsAnyOperatorKey(v.entries)
  }

  function LikePattern(t: TextOp, s: string): string {
    match t
    case Contains => "%" + s + "%"
    case StartsWith => s + "%"
    case EndsWith => "%" + s
  }

  // ---------------------------------------------------------------- fragments

  datatype Frag = Frag(toks: seq<Token>, args: seq<Value>, next: nat)

  datatype Parts = Parts(parts: seq<seq<Token>>, args: seq<Value>, next: nat) {
    // An empty part leaves no trace but the counter.
    function Add(f: Frag): Parts {
      if f.toks == [] then Parts(parts, args, f.next)
      else Parts(parts + [f.toks], args + f.args, f.next)
    }

    function Joined(sep: Keyword): Frag {
      Frag(Join(parts, sep), args, next)
    }

    function Parenthesised(sep: Keyword): Frag {
      if parts == [] then Frag([], args, next)
      else Frag([LP] + Join(parts, sep) + [RP], args, next)
    }
  }

  function Join(parts: seq<seq<Token>>, sep: Keyword): seq<Token> {
    if parts == [] then []
    else if |parts| == 1 then parts[0]
    else Join(parts[..|parts| - 1], sep) + [Kw(sep)] + parts[|parts| - 1]
  }

  // Placeholders start+1 .. start+n separated by commas.
  function Holders(start: nat, n: nat): seq<Token> {
    if n == 0 then []
    else if n == 1 then [Ph(start + 1)]
    else Holders(start, n - 1) + [Comma, Ph(start + n)]
  }

  // ---------------------------------------------------------------- specification of the compiler

  function CompileWhere(es: seq<Entry>, start: nat): Result<Frag>
    decreases es, 1
  {
    var p :- WhereParts(es, start);
    Ok(p.Joined(AND))
  }

  function WhereParts(es: seq<Entry>, start: nat): Result<Parts>
    decreases es, 0
  {
    if es == [] then Ok(Parts([], [], start))
    else
      var p :- WhereParts(es[..|es| - 1], start);
      var f :- CompileEntry(es[|es| - 1], p.next);
      Ok(p.Add(f))
  }

  function CompileEntry(e: Entry, start: nat): Result<Frag>
    decreases e, 1
  {
    match KindOf(e.key)
    case AndKey => CompileList(AND, e.val, start)
    case OrKey => CompileList(OR, e.val, start)
    case NotKey => CompileNot(e.val, start)
    case Column => CompileField(e.key, e.val, start)
  }

  function CompileList(op: Keyword, v: Value, start: nat): Result<Frag>
    decreases v, 1
  {
    match v
    case Null => Ok(Frag([], [], start))
    case Obj(_) =>
      var f :- CompileCondition(v, start);
      Ok(Parts([], [], start).Add(f).Parenthesised(op))
    case List(items) =>
      var p :- ConditionParts(items, start);
      Ok(p.Parenthesised(op))
    case _ => Err(InvalidInput)
  }

  function ConditionParts(cs: seq<Value>, start: nat): Result<Parts>
    decreases cs, 0
  {
    if cs == [] then Ok(Parts([], [], start))
    else
      var p :- ConditionParts(cs[..|cs| - 1], start);
      var f :- CompileCondition(cs[|cs| - 1], p.next);
      Ok(p.Add(f))
  }

  function CompileCondition(v: Value, start: nat): Result<Frag>
    decreases v, 0
  {
    if v.Obj? then CompileWhere(v.entries, start) else Err(InvalidInput)
  }

  function CompileNot(v: Value, start: nat): Result<Frag>
    decreases v, 1
  {
    var f :- CompileCondition(v, start);
    Ok(if f.toks == [] then f else Frag([Kw(NOT), LP] + f.toks + [RP], f.args, f.next))
  }

  function CompileField(column: string, v: Value, start: nat): Result<Frag>
    decreases v, 1
  {
    var col :- ValidIdentifier(column);
    if IsOperatorObject(v) then CompileOperators(col, v.entries, start)
    else Ok(EqualsFrag(col, v, start))
  }

  function CompileOperators(col: string, ops: seq<Entry>, start: nat): Result<Frag>
    decreases ops, 1
  {
    var p :- OperatorParts(col, ops, start);
    Ok(p.Joined(AND))
  }

  function OperatorParts(col: string, ops: seq<Entry>, start: nat): Result<Parts>
    decreases ops, 0
  {
    if ops == [] then Ok(Parts([], [], start))
    else
      var p :- OperatorParts(col, ops[..|ops| - 1], start);
      var f :- CompileOperator(col, ops[|ops| - 1], p.next);
      Ok(Parts(p.parts + [f.toks], p.args + f.args, f.next))
  }

  function CompileOperator(col: string, e: Entry, start: nat): Result<Frag>
    decreases e
  {
    match OpOf(e.key)
    case Equals => Ok(EqualsFrag(col, e.val, start))
    case Negate => CompileNotField(col, e.val, start)
    case InOp(negated) => InFrag(col, e.val, negated, start)
    case Order(op) => Ok(CompareFrag(col, op, e.val, start))
    case Text(t) =>
      if e.val.Str? then Ok(CompareFrag(col, Like, Str(LikePattern(t, e.val.s)), start)) else Err(InvalidInput)
    case IsSet =>
      if e.val.Bool? then Ok(NullFrag(col, !e.val.b, start)) else Err(InvalidInput)
    case IsEmpty =>
      if e.val.Bool? then Ok(Frag([Ident(col), Op(if e.val.b then Eq else Ne), Lit(Str(""))], [], start))
      else Err(InvalidInput)
    case Unsupported => Err(UnsupportedOperator)
    case NoOperator => Err(InvalidInput)
  }

  function CompileNotField(col: string, v: Value, start: nat): Result<Frag>
    decreases v, 2
  {
    if v.Obj? && v.entries != [] then
      var f :- CompileOperators(col, v.entries, start);
      Ok(Frag([Kw(NOT), LP] + f.toks + [RP], f.args, f.next))
    else if v.Null? then Ok(NullFrag(col, false, start))
    else Ok(CompareFrag(col, Ne, v, start))
  }

  function NullFrag(col: string, isNull: bool, start: nat): Frag {
    if isNull then Frag([Ident(col), Kw(IS), Kw(NULL)], [], start)
    else Frag([Ident(col), Kw(IS), Kw(NOT), Kw(NULL)], [], start)
  }

  function EqualsFrag(col: string, v: Value, start: nat): Frag {
    if v.Null? then NullFrag(col, true, start) else CompareFrag(col, Eq, v, start)
  }

  function CompareFrag(col: string, op: CmpOp, v: Value, start: nat): Frag {
    Frag([Ident(col), Op(op), Ph(start + 1)], [v], start + 1)
  }

  function InFrag(col: string, v: Value, negated: bool, start: nat): Result<Frag> {
    if !v.List? || v.items == [] then Err(InvalidInput)
    else
      var op := if negated then [Kw(NOT), Kw(IN)] else [Kw(IN)];
      Ok(Frag([Ident(col)] + op + [LP] + Holders(start, |v.items|) + [RP], v.items, start + |v.items|))
  }

  // ---------------------------------------------------------------- the builders themselves

  method BuildWhereMap(es: seq<Entry>, start: nat) returns (r: Result<Frag>)
    ensures r == CompileWhere(es, start)
    decreases es, 1
  {
    var parts: seq<seq<Token>>, args: seq<Value>, next := [], [], start;
    for i := 0 to |es|
      invariant WhereParts(es[..i], start) == Ok(Parts(parts, args, next))
    {
      assert es[..i + 1][..i] == es[..i];
      var e := es[i];
      var f: Result<Frag>;
      match KindOf(e.key) {
        case AndKey => f := BuildLogicalListExpr(AND, e.val, next);
        case OrKey => f := BuildLogicalListExpr(OR, e.val, next);
        case NotKey => f := BuildNotExpr(e.val, next);
        case Column => f := BuildFieldExpr(e.key, e.val, next);
      }
      if f.Err? {
        WherePartsError(es, i + 1, start);
        return Err(f.error);
      }
      next := f.value.next;
      if f.value.toks != [] {
        parts := parts + [f.value.toks];
        args := args + f.value.args;
      }
    }
    assert es[..|es|] == es;
    return Ok(Frag(Join(parts, AND), args, next));
  }

  // The first error met is the error reported.
  lemma {:induction false} WherePartsError(es: seq<Entry>, i: nat, start: nat)
    requires i <= |es| && WhereParts(es[..i], start).Err?
    ensures WhereParts(es, start) == Err(WhereParts(es[..i], start).error)
    decreases |es|
  {
    if i == |es| {
      assert es[..i] == es;
    } else {
      assert es[..|es| - 1][..i] == es[..i];
      WherePartsError(es[..|es| - 1], i, start);
    }
  }

  // A group of the conditions, or the error that stands in for them.
  function CompileConditions(op: Keyword, cs: Result<seq<Value>>, start: nat): Result<Frag> {
    var items :- cs;
    var p :- ConditionParts(items, start);
    Ok(p.Parenthesised(op))
  }

  // AND and OR see nothing of their operand but this list: compiling its conditions one after the
  // other gives the same group, or the same error, for either connective and any counter.
  method AsConditionList(v: Value) returns (r: Result<seq<Value>>)
    ensures forall op, start :: CompileList(op, v, start) == CompileConditions(op, r, start)
    ensures r.Err? <==> !v.Null? && !v.Obj? && !v.List?
    ensures r.Ok? ==> forall i :: 0 <= i < |r.value| ==> r.value[i] == v || (v.List? && r.value[i] in v.items)
  {
    match v {
      case Null => r := Ok([]);
      case Obj(_) => r := Ok([v]);
      case List(items) => r := Ok(items);
      case _ => r := Err(InvalidInput);
    }
    forall op, start: nat ensures CompileList(op, v, start) == CompileConditions(op, r, start) {
      if v.Obj? {
        SingleCondition(v, start);
      }
    }
  }

  method BuildLogicalListExpr(op: Keyword, v: Value, start: nat) returns (r: Result<Frag>)
    ensures r == CompileList(op, v, start)
    decreases v, 3
  {
    var conds :- AsConditionList(v);
    var parts: seq<seq<Token>>, args: seq<Value>, next := [], [], start;
    for i := 0 to |conds|
      invariant ConditionParts(conds[..i], start) == Ok(Parts(parts, args, next))
    {
      assert conds[..i + 1][..i] == conds[..i];
      var f := BuildConditionValue(conds[i], next);
      if f.Err? {
        ConditionPartsError(conds, i + 1, start);
        return Err(f.error);
      }
      next := f.value.next;
      if f.value.toks != [] {
        parts := parts + [f.value.toks];
        args := args + f.value.args;
      }
    }
    assert conds[..|conds|] == conds;
    if parts == [] {
      return Ok(Frag([], args, next));
    }
    return Ok(Frag([LP] + Join(parts, op) + [RP], args, next));
  }

  lemma SingleCondition(v: Value, start: nat)
    ensures ConditionParts([v], start) ==
            match CompileCondition(v, start)
            case Ok(f) => Ok(Parts([], [], start).Add(f))
            case Err(e) => Err(e)
  {
    assert [v][..0] == [];
    assert ConditionParts([], start) == Ok(Parts([], [], start));
  }

  lemma {:induction false} ConditionPartsError(cs: seq<Value>, i: nat, start: nat)
    requires i <= |cs| && ConditionParts(cs[..i], start).Err?
    ensures ConditionParts(cs, start) == Err(ConditionParts(cs[..i], start).error)
    decreases |cs|
  {
    if i == |cs| {
      assert cs[..i] == cs;
    } else {
      assert cs[..|cs| - 1][..i] == cs[..i];
      ConditionPartsError(cs[..|cs| - 1], i, start);
    }
  }

  method BuildConditionValue(v: Value, start: nat) returns (r: Result<Frag>)
    ensures r == CompileCondition(v, start)
    decreases v, 2
  {
    if !v.Obj? {
      return Err(InvalidInput);
    }
    r := BuildWhereMap(v.entries, start);
  }

  method BuildNotExpr(v: Value, start: nat) returns (r: Result<Frag>)
    ensures r == CompileNot(v, start)
    decreases v, 3
  {
    var f :- BuildConditionValue(v, start);
    if f.toks == [] {
      return Ok(f);
    }
    return Ok(Frag([Kw(NOT), LP] + f.toks + [RP], f.args, f.next));
  }

  method BuildFieldExpr(column: string, v: Value, start: nat) returns (r: Result<Frag>)
    ensures r == CompileField(column, v, start)
    decreases v, 3
  {
    var col :- ValidIdentifier(column);
    if IsOperatorObject(v) {
      r := BuildOperatorExpr(col, v.entries, start);
    } else {
      r := Ok(EqualsFrag(col, v, start));
    }
  }

  method BuildOperatorExpr(col: string, ops: seq<Entry>, start: nat) returns (r: Result<Frag>)
    ensures r == CompileOperators(col, ops, start)
    decreases ops, 1
  {
    var parts: seq<seq<Token>>, args: seq<Value>, next := [], [], start;
    for i := 0 to |ops|
      invariant OperatorParts(col, ops[..i], start) == Ok(Parts(parts, args, next))
    {
      assert ops[..i + 1][..i] == ops[..i];
      var e := ops[i];
      var f: Result<Frag>;
      match OpOf(e.key) {
        case Negate => f := BuildNotFieldExpr(col, e.val, next);
        case InOp(negated) => f := BuildInExpr(col, e.val, negated, next);
        case _ => f := CompileOperator(col, e, next);
      }
      if f.Err? {
        OperatorPartsError(col, ops, i + 1, start);
        return Err(f.error);
      }
      parts := parts + [f.value.toks];
      args := args + f.value.args;
      next := f.value.next;
    }
    assert ops[..|ops|] == ops;
    return Ok(Frag(Join(parts, AND), args, next));
  }

  lemma {:induction false} OperatorPartsError(col: string, ops: seq<Entry>, i: nat, start: nat)
    requires i <= |ops| && OperatorParts(col, ops[..i], start).Err?
    ensures OperatorParts(col, ops, start) == Err(OperatorParts(col, ops[..i], start).error)
    decreases |ops|
  {
    if i == |ops| {
      assert ops[..i] == ops;
    } else {
      assert ops[..|ops| - 1][..i] == ops[..i];
      OperatorPartsError(col, ops[..|ops| - 1], i, start);
    }
  }

  method BuildNotFieldExpr(col: string, v: Value, start: nat) returns (r: Result<Frag>)
    ensures r == CompileNotField(col, v, start)
    decreases v, 2
  {
    if v.Obj? && v.entries != [] {
      var f :- BuildOperatorExpr(col, v.entries, start);
      return Ok(Frag([Kw(NOT), LP] + f.toks + [RP], f.args, f.next));
    }
    if v.Null? {
      return Ok(NullFrag(col, false, start));
    }
    return Ok(CompareFrag(col, Ne, v, start));
  }

  method BuildInExpr(col: string, v: Value, negated: bool, start: nat) returns (r: Result<Frag>)
    ensures r == InFrag(col, v, negated, start)
  {
    if !v.List? || v.items == [] {
      return Err(InvalidInput);
    }
    var holders: seq<Token>, next := [], start;
    for i := 0 to |v.items|
      invariant next == start + i && holders == Holders(start, i)
    {
      next := next + 1;
      holders := if holders == [] then [Ph(next)] else holders + [Comma, Ph(next)];
    }
    var op := if negated then [Kw(NOT), Kw(IN)] else [Kw(IN)];
    return Ok(Frag([Ident(col)] + op + [LP] + holders + [RP], v.items, next));
  }
}
