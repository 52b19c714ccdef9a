/** SQL as the statement builders use it: values, tokens, a precedence parser and a
    three-valued evaluator (section 8.12 of ISO/IEC 9075:1992). */
module Sql {
  import opened Strings

  // A Go `any` as it reaches the ORM.  An object lists its entries in the order in
  // which the code visits them (sorted by key).
  datatype Value =
    | Null
    | Bool(b: bool)
    | Num(n: int)
    | Str(s: string)
    | List(items: seq<Value>)
    | Obj(entries: seq<Entry>)

  datatype Entry = Entry(key: string, val: Value)

  datatype CmpOp = Eq | Ne | Lt | Le | Gt | Ge | Like

  datatype Keyword =
    | AND | OR | NOT | IS | NULL | IN
    | INSERT | INTO | VALUES | UPDATE | SET | DELETE | FROM | SELECT
    | WHERE | ORDER | BY | ASC | DESC | LIMIT | OFFSET | RETURNING

  // `Ph(n)` is the placeholder `$n`, `Mark` the placeholder `?`.
  datatype Token =
    | Kw(k: Keyword)
    | Ident(name: string)
    | Op(op: CmpOp)
    | Ph(n: nat)
    | Mark
    | Lit(v: Value)
    | LP | RP | Comma | Star

  // ---------------------------------------------------------------- three-valued logic

  datatype Tri = True | False | Unknown

  function Not3(a: Tri): Tri {
    match a
    case True => False
    case False => True
    case Unknown => Unknown
  }

  function And3(a: Tri, b: Tri): Tri {
    if a == False || b == False then False
    else if a == True && b == True then True
    else Unknown
  }

  function Or3(a: Tri, b: Tri): Tri {
    if a == True || b == True then True
    else if a == False && b == False then False
    else Unknown
  }

  type Row = map<string, Value>

  // How the engine compares two non-NULL values; every result holds for any engine.
  type Engine = (CmpOp, Value, Value) -> bool

  function ColumnOf(row: Row, col: string): Value {
    if col in row then row[col] else Null
  }

  function Compare(eng: Engine, op: CmpOp, a: Value, b: Value): Tri {
    if a.Null? || b.Null? then Unknown
    else if eng(op, a, b) then True
    else False
  }

  function MemberOf(eng: Engine, a: Value, vs: seq<Value>): Tri {
    if vs == [] then False
    else Or3(Compare(eng, Eq, a, vs[0]), MemberOf(eng, a, vs[1..]))
  }

  function Truth(b: bool): Tri {
    if b then True else False
  }

  // ---------------------------------------------------------------- search conditions

  // `Any(alts)` is a parenthesised condition: a disjunction of conjunctions.
  datatype Expr =
    | Cmp(op: CmpOp, col: string, v: Value)
    | IsNull(col: string)
    | NotNull(col: string)
    | InList(col: string, vs: seq<Value>)
    | NotInList(col: string, vs: seq<Value>)
    | Not(e: Expr)
    | Any(alts: seq<Conj>)

  datatype Conj = Conj(factors: seq<Expr>)

  function Eval(eng: Engine, e: Expr, row: Row): Tri
    decreases e
  {
    match e
    case Cmp(op, col, v) => Compare(eng, op, ColumnOf(row, col), v)
    case IsNull(col) => Truth(ColumnOf(row, col).Null?)
    case NotNull(col) => Truth(!ColumnOf(row, col).Null?)
    case InList(col, vs) => MemberOf(eng, ColumnOf(row, col), vs)
    case NotInList(col, vs) => Not3(MemberOf(eng, ColumnOf(row, col), vs))
    case Not(f) => Not3(Eval(eng, f, row))
    case Any(alts) => EvalAny(eng, alts, row)
  }

  function EvalAll(eng: Engine, es: seq<Expr>, row: Row): Tri
    decreases es
  {
    if es == [] then True
    else And3(EvalAll(eng, es[..|es| - 1], row), Eval(eng, es[|es| - 1], row))
  }

  function EvalAny(eng: Engine, alts: seq<Conj>, row: Row): Tri
    decreases alts
  {
    if alts == [] then False
    else Or3(EvalAny(eng, alts[..|alts| - 1], row), EvalAll(eng, alts[|alts| - 1].factors, row))
  }

  // ---------------------------------------------------------------- parser
  // search condition  ::= term { OR term }
  // term              ::= factor { AND factor }
  // factor            ::= [ NOT ] primary
  // primary           ::= predicate | ( search condition )

  predicate Starts(ts: seq<Token>, t: Token) {
    ts != [] && ts[0] == t
  }

  function ParseValues(ts: seq<Token>): (r: Option<(seq<Value>, seq<Token>)>)
    ensures r.Some? ==> |r.value.1| < |ts|
    decreases |ts|
  {
    if ts == [] || !ts[0].Lit? then None
    else if !Starts(ts[1..], Comma) then Some(([ts[0].v], ts[1..]))
    else match ParseValues(ts[2..])
      case None => None
      case Some((vs, rest)) => Some(([ts[0].v] + vs, rest))
  }

  // The list of an IN predicate, up to and including its closing parenthesis.
  function ParseList(ts: seq<Token>): (r: Option<(seq<Value>, seq<Token>)>)
    ensures r.Some? ==> |r.value.1| < |ts|
  {
    match ParseValues(ts)
    case None => None
    case Some((vs, rest)) => if Starts(rest, RP) then Some((vs, rest[1..])) else None
  }

  function ParsePredicate(ts: seq<Token>): (r: Option<(Expr, seq<Token>)>)
    ensures r.Some? ==> |r.value.1| < |ts|
  {
    if |ts| < 3 || !ts[0].Ident? then None
    else
      var col := ts[0].name;
      if ts[1].Op? then
        if ts[2].Lit? then Some((Cmp(ts[1].op, col, ts[2].v), ts[3..])) else None
      else if ts[1] == Kw(IS) then
        if ts[2] == Kw(NULL) then Some((IsNull(col), ts[3..]))
        else if ts[2] == Kw(NOT) && Starts(ts[3..], Kw(NULL)) then Some((NotNull(col), ts[4..]))
        else None
      else if ts[1] == Kw(IN) && ts[2] == LP then
        match ParseList(ts[3..])
        case None => None
        case Some((vs, rest)) => Some((InList(col, vs), rest))
      else if ts[1] == Kw(NOT) && ts[2] == Kw(IN) && Starts(ts[3..], LP) then
        match ParseList(ts[4..])
        case None => None
        case Some((vs, rest)) => Some((NotInList(col, vs), rest))
      else None
  }

  function ParsePrimary(ts: seq<Token>): (r: Option<(Expr, seq<Token>)>)
    ensures r.Some? ==> |r.value.1| < |ts|
    decreases |ts|, 0
  {
    if Starts(ts, LP) then
      match ParseOr(ts[1..])
      case None => None
      case Some((alts, rest)) => if Starts(rest, RP) then Some((Any(alts), rest[1..])) else None
    else ParsePredicate(ts)
  }

  function ParseFactor(ts: seq<Token>): (r: Option<(Expr, seq<Token>)>)
    ensures r.Some? ==> |r.value.1| < |ts|
    decreases |ts|, 1
  {
    if Starts(ts, Kw(NOT)) then
      match ParsePrimary(ts[1..])
      case None => None
      case Some((e, rest)) => Some((Not(e), rest))
    else ParsePrimary(ts)
  }

  function ParseAnd(ts: seq<Token>): (r: Option<(seq<Expr>, seq<Token>)>)
    ensures r.Some? ==> |r.value.1| < |ts|
    decreases |ts|, 2
  {
    match ParseFactor(ts)
    case None => None
    case Some((e, rest)) => MoreAnd([e], rest)
  }

  // What follows a conjunction that has read the factors `es` so far.
  function MoreAnd(es: seq<Expr>, rest: seq<Token>): (r: Option<(seq<Expr>, seq<Token>)>)
    ensures r.Some? ==> |r.value.1| <= |rest|
    decreases |rest|, 3
  {
    if !Starts(rest, Kw(AND)) then Some((es, rest))
    else match ParseAnd(rest[1..])
      case None => None
      case Some((fs, rest')) => Some((es + fs, rest'))
  }

  function ParseOr(ts: seq<Token>): (r: Option<(seq<Conj>, seq<Token>)>)
    ensures r.Some? ==> |r.value.1| < |ts|
    decreases |ts|, 4
  {
    match ParseAnd(ts)
    case None => None
    case Some((es, rest)) => MoreOr([Conj(es)], rest)
  }

  function MoreOr(alts: seq<Conj>, rest: seq<Token>): (r: Option<(seq<Conj>, seq<Token>)>)
    ensures r.Some? ==> |r.value.1| <= |rest|
    decreases |rest|, 5
  {
    if !Starts(rest, Kw(OR)) then Some((alts, rest))
    else match ParseOr(rest[1..])
      case None => None
      case Some((more, rest')) => Some((alts + more, rest'))
  }

  // ---------------------------------------------------------------- placeholders on the wire

  datatype Dialect = Numbered | Positional

  // `ph`: `$n` for postgres, `?` otherwise.
  function Emit(d: Dialect, ts: seq<Token>): seq<Token> {
    if ts == [] then []
    else [if ts[0].Ph? && d.Positional? then Mark else ts[0]] + Emit(d, ts[1..])
  }

  // The server binds `$n` to the n-th argument and the k-th `?` to the k-th argument.
  function Bind(ts: seq<Token>, args: seq<Value>, k: nat): seq<Token> {
    if ts == [] then []
    else match ts[0]
      case Ph(n) => [if 1 <= n <= |args| then Lit(args[n - 1]) else ts[0]] + Bind(ts[1..], args, k)
      case Mark => [if k < |args| then Lit(args[k]) else Mark] + Bind(ts[1..], args, k + 1)
      case _ => [ts[0]] + Bind(ts[1..], args, k)
  }

  // Every `Ph(n)` replaced by the n-th argument, whatever its position in the text.
  function ResolveToken(t: Token, args: seq<Value>): Token {
    if t.Ph? && 1 <= t.n <= |args| then Lit(args[t.n - 1]) else t
  }

  function Resolve(ts: seq<Token>, args: seq<Value>): seq<Token> {
    seq(|ts|, i requires 0 <= i < |ts| => ResolveToken(ts[i], args))
  }

  lemma ResolveConcat(a: seq<Token>, b: seq<Token>, args: seq<Value>)
    ensures Resolve(a + b, args) == Resolve(a, args) + Resolve(b, args)
  {
  }

  // The placeholder numbers of a text, from left to right.
  function PhNums(ts: seq<Token>): seq<nat> {
    if ts == [] then []
    else (if ts[0].Ph? then [ts[0].n] else []) + PhNums(ts[1..])
  }

  function UpTo(start: nat, n: nat): seq<nat> {
    seq(n, i requires 0 <= i < n => start + 1 + i)
  }

  predicate NoMarks(ts: seq<Token>) {
    forall t :: t in ts ==> !t.Mark?
  }

  lemma {:induction false} PhNumsConcat(a: seq<Token>, b: seq<Token>)
    ensures PhNums(a + b) == PhNums(a) + PhNums(b)
  {
    if a == [] {
      assert a + b == b;
    } else {
      assert (a + b)[1..] == a[1..] + b && (a + b)[0] == a[0];
      PhNumsConcat(a[1..], b);
      assert PhNums(a + b) == (if a[0].Ph? then [a[0].n] else []) + (PhNums(a[1..]) + PhNums(b));
    }
  }

  /** If a text numbers its placeholders k+1, k+2, ... from left to right, then both
      renderings bind every placeholder to the argument its number names. */
  lemma {:induction false} BothDialectsBindAlike(d: Dialect, ts: seq<Token>, args: seq<Value>, k: nat, m: nat)
    requires NoMarks(ts)
    requires PhNums(ts) == UpTo(k, m) && k + m <= |args|
    ensures Bind(Emit(d, ts), args, k) == Resolve(ts, args)
  {
    if ts != [] {
      var t, rest := ts[0], ts[1..];
      assert ts == [t] + rest;
      assert t in ts && NoMarks(rest);
      if t.Ph? {
        assert UpTo(k, m)[0] == t.n == k + 1;
        assert PhNums(rest) == UpTo(k, m)[1..];
        assert UpTo(k, m)[1..] == UpTo(k + 1, m - 1);
        if d.Positional? {
          BothDialectsBindAlike(d, rest, args, k + 1, m - 1);
        } else {
          NumberedBinds(rest, args, k);
        }
      } else {
        BothDialectsBindAlike(d, rest, args, k, m);
      }
      assert Resolve(ts, args) == [ResolveToken(t, args)] + Resolve(rest, args);
    }
  }

  lemma {:induction false} NumberedBinds(ts: seq<Token>, args: seq<Value>, k: nat)
    requires NoMarks(ts)
    ensures Bind(Emit(Numbered, ts), args, k) == Resolve(ts, args)
  {
    if ts != [] {
      assert ts[0] in ts;
      NumberedBinds(ts[1..], args, k);
      assert Resolve(ts, args) == [ResolveToken(ts[0], args)] + Resolve(ts[1..], args);
    }
  }
}
