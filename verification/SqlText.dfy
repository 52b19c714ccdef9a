/** The characters of a statement: how tokens are printed, and how a server splits the text into
    tokens again. */
module SqlText {
  import opened Strings
  import opened Sql

  // ---------------------------------------------------------------- printing

  function KeywordText(k: Keyword): string {
    match k
    case AND => "AND" case OR => "OR" case NOT => "NOT" case IS => "IS" case NULL => "NULL" case IN => "IN"
    case INSERT => "INSERT" case INTO => "INTO" case VALUES => "VALUES" case UPDATE => "UPDATE" case SET => "SET"
    case DELETE => "DELETE" case FROM => "FROM" case SELECT => "SELECT" case WHERE => "WHERE" case ORDER => "ORDER"
    case BY => "BY" case ASC => "ASC" case DESC => "DESC" case LIMIT => "LIMIT" case OFFSET => "OFFSET"
    case RETURNING => "RETURNING"
  }

  function OpText(op: CmpOp): string {
    match op
    case Eq => "=" case Ne => "<>" case Lt => "<" case Le => "<=" case Gt => ">" case Ge => ">=" case Like => "LIKE"
  }

  // The empty string is the only literal that is ever printed.
  function TokenText(t: Token): string {
    match t
    case Kw(k) => KeywordText(k)
    case Ident(name) => name
    case Op(op) => OpText(op)
    case Ph(n) => "$" + Itoa(n)
    case Mark => "?"
    case Lit(_) => "''"
    case LP => "("
    case RP => ")"
    case Comma => ","
    case Star => "*"
  }

  function Gap(a: Token, b: Token): string {
    if a.LP? || b.RP? || b.Comma? then "" else " "
  }

  // Tokens printed one after the other, each by `text`.
  function Printed(text: Token -> string, ts: seq<Token>): string {
    if ts == [] then ""
    else if |ts| == 1 then text(ts[0])
    else text(ts[0]) + Gap(ts[0], ts[1]) + Printed(text, ts[1..])
  }

  function Render(ts: seq<Token>): string {
    Printed(TokenText, ts)
  }

  lemma PrintedCons(text: Token -> string, t: Token, ts: seq<Token>)
    requires ts != []
    ensures Printed(text, [t] + ts) == text(t) + Gap(t, ts[0]) + Printed(text, ts)
  {
    assert ([t] + ts)[1..] == ts;
  }

  lemma Regroup(t: string, g: string, r: string, h: string, q: string)
    ensures t + g + (r + h + q) == t + g + r + h + q
  {
  }

  lemma PrintedConcatStep(text: Token -> string, t: Token, rest: seq<Token>, b: seq<Token>, gap: string)
    requires rest != [] && b != [] && Printed(text, rest + b) == Printed(text, rest) + gap + Printed(text, b)
    ensures Printed(text, [t] + (rest + b)) == Printed(text, [t] + rest) + gap + Printed(text, b)
  {
    PrintedCons(text, t, rest);
    PrintedCons(text, t, rest + b);
    Regroup(text(t), Gap(t, rest[0]), Printed(text, rest), gap, Printed(text, b));
  }

  lemma {:induction false} PrintedConcat(text: Token -> string, a: seq<Token>, b: seq<Token>)
    requires a != [] && b != []
    ensures Printed(text, a + b) == Printed(text, a) + Gap(a[|a| - 1], b[0]) + Printed(text, b)
  {
    if |a| == 1 {
      assert a == [a[0]];
      PrintedCons(text, a[0], b);
    } else {
      var rest := a[1..];
      PrintedConcat(text, rest, b);
      assert rest[|rest| - 1] == a[|a| - 1];
      PrintedConcatStep(text, a[0], rest, b, Gap(a[|a| - 1], b[0]));
      assert a == [a[0]] + rest && a + b == [a[0]] + (rest + b);
    }
  }

  lemma Respace(f: string, k: string, g: string)
    ensures f + " " + k + " " + g == f + (" " + k + " ") + g
  {
  }

  /** Two parts joined by a connective are printed with blanks around it. */
  lemma PrintedJoin(f: seq<Token>, k: Keyword, g: seq<Token>)
    requires f != [] && g != [] && !f[|f| - 1].LP? && !g[0].RP? && !g[0].Comma?
    ensures Render(f + [Kw(k)] + g) == Render(f) + (" " + KeywordText(k) + " ") + Render(g)
  {
    PrintedConcat(TokenText, f, [Kw(k)]);
    PrintedConcat(TokenText, f + [Kw(k)], g);
    Respace(Render(f), KeywordText(k), Render(g));
  }

  /** A group is printed without blanks inside its parentheses. */
  lemma PrintedGroup(f: seq<Token>)
    requires f != []
    ensures Render([LP] + f + [RP]) == "(" + Render(f) + ")"
  {
    PrintedConcat(TokenText, [LP] + f, [RP]);
    PrintedCons(TokenText, LP, f);
  }

  lemma NegatedForm(f: string)
    ensures "NOT" + " " + ("(" + f + ")") == "NOT (" + f + ")"
  {
    assert "NOT" + " " + "(" == "NOT (";
  }

  /** A negated group is printed with a blank before the parenthesis. */
  lemma PrintedNegation(f: seq<Token>)
    requires f != []
    ensures Render([Kw(NOT), LP] + f + [RP]) == "NOT (" + Render(f) + ")"
  {
    var group := [LP] + f + [RP];
    PrintedGroup(f);
    PrintedCons(TokenText, Kw(NOT), group);
    assert [Kw(NOT)] + group == [Kw(NOT), LP] + f + [RP];
    NegatedForm(Render(f));
  }

  // ---------------------------------------------------------------- splitting into tokens

  function KeywordOf(up: string): Option<Keyword> {
    match up
    case "AND" => Some(AND) case "OR" => Some(OR) case "NOT" => Some(NOT) case "IS" => Some(IS) case "NULL" => Some(NULL)
    case "IN" => Some(IN) case "INSERT" => Some(INSERT) case "INTO" => Some(INTO) case "VALUES" => Some(VALUES)
    case "UPDATE" => Some(UPDATE) case "SET" => Some(SET) case "DELETE" => Some(DELETE) case "FROM" => Some(FROM)
    case "SELECT" => Some(SELECT) case "WHERE" => Some(WHERE) case "ORDER" => Some(ORDER) case "BY" => Some(BY)
    case "ASC" => Some(ASC) case "DESC" => Some(DESC) case "LIMIT" => Some(LIMIT) case "OFFSET" => Some(OFFSET)
    case "RETURNING" => Some(RETURNING)
    case _ => None
  }

  // What a word is to the server, whatever its case; `reserved` are the further words, in upper case,
  // that it does not take for a name.
  function Classify(reserved: set<string>, word: string): Option<Token> {
    var up := ToUpper(word);
    if KeywordOf(up).Some? then Some(Kw(KeywordOf(up).value))
    else if up == "LIKE" then Some(Op(Like))
    else if up in reserved then None
    else Some(Ident(word))
  }

  function WordLength(s: string): (n: nat)
    ensures n <= |s|
  {
    if s != [] && IdentChar(s[0]) then 1 + WordLength(s[1..]) else 0
  }

  function DigitLength(s: string): (n: nat)
    ensures n <= |s| && forall i :: 0 <= i < n ==> IsDigit(s[i])
  {
    if s != [] && IsDigit(s[0]) then
      var n := DigitLength(s[1..]);
      assert forall i :: 1 <= i < n + 1 ==> s[i] == s[1..][i - 1];
      1 + n
    else 0
  }

  // The first token of a text and how long it is.
  function FirstToken(reserved: set<string>, s: string): (r: Option<(Token, nat)>)
    requires s != []
    ensures r.Some? ==> 0 < r.value.1 <= |s|
  {
    var c := s[0];
    if c == '(' then Some((LP, 1))
    else if c == ')' then Some((RP, 1))
    else if c == ',' then Some((Comma, 1))
    else if c == '*' then Some((Star, 1))
    else if c == '?' then Some((Mark, 1))
    else if c == '=' then Some((Op(Eq), 1))
    else if c == '<' then
      if |s| > 1 && s[1] == '>' then Some((Op(Ne), 2))
      else if |s| > 1 && s[1] == '=' then Some((Op(Le), 2))
      else Some((Op(Lt), 1))
    else if c == '>' then
      if |s| > 1 && s[1] == '=' then Some((Op(Ge), 2)) else Some((Op(Gt), 1))
    else if c == '\'' then
      if |s| > 1 && s[1] == '\'' && (|s| == 2 || s[2] != '\'') then Some((Lit(Str("")), 2)) else None
    else if c == '$' then
      var n := DigitLength(s[1..]);
      if n == 0 then None else Some((Ph(DigitsValue(s[1..][..n])), n + 1))
    else if IdentStart(c) then
      var n := WordLength(s);
      match Classify(reserved, s[..n])
      case None => None
      case Some(t) => Some((t, n))
    else None
  }

  function Lex(reserved: set<string>, s: string): Option<seq<Token>>
    decreases |s|
  {
    if s == [] then Some([])
    else if s[0] == ' ' then Lex(reserved, s[1..])
    else
      match FirstToken(reserved, s)
      case None => None
      case Some((t, n)) =>
        match Lex(reserved, s[n..])
        case None => None
        case Some(ts) => Some([t] + ts)
  }

  // ---------------------------------------------------------------- printing and splitting again

  // A token with a text of its own.
  predicate Printable(t: Token) {
    && (t.Ident? ==> IsIdent(t.name))
    && (t.Lit? ==> t.v == Str(""))
  }

  predicate AllPrintable(ts: seq<Token>) {
    forall i :: 0 <= i < |ts| ==> Printable(ts[i])
  }

  // The server takes the word for a name.
  predicate PlainName(reserved: set<string>, name: string) {
    Classify(reserved, name) == Some(Ident(name))
  }

  predicate AllPlain(reserved: set<string>, ts: seq<Token>) {
    forall i :: 0 <= i < |ts| && ts[i].Ident? ==> PlainName(reserved, ts[i].name)
  }

  // What is left of a token once it has been printed and read.
  function Relex(reserved: set<string>, t: Token): Option<Token> {
    if t.Ident? then Classify(reserved, t.name) else Some(t)
  }

  function RelexAll(reserved: set<string>, ts: seq<Token>): Option<seq<Token>> {
    if ts == [] then Some([])
    else
      match (Relex(reserved, ts[0]), RelexAll(reserved, ts[1..]))
      case (Some(t), Some(rest)) => Some([t] + rest)
      case _ => None
  }

  lemma UpperStays(w: string)
    requires w != "" && forall i :: 0 <= i < |w| ==> 'A' <= w[i] <= 'Z'
    ensures ToUpper(w) == w && IsIdent(w)
  {
  }

  lemma KeywordOfText(k: Keyword)
    ensures KeywordOf(KeywordText(k)) == Some(k)
  {
  }

  lemma KeywordReads(reserved: set<string>, k: Keyword)
    ensures IsIdent(KeywordText(k)) && Classify(reserved, KeywordText(k)) == Some(Kw(k))
  {
    UpperStays(KeywordText(k));
    KeywordOfText(k);
  }

  lemma LikeReads(reserved: set<string>)
    ensures IsIdent("LIKE") && Classify(reserved, "LIKE") == Some(Op(Like))
  {
    UpperStays("LIKE");
  }

  // What may follow a word, a number or a sign without becoming part of it.
  predicate Delimits(rest: string) {
    rest == "" || rest[0] == ' ' || rest[0] == ',' || rest[0] == ')'
  }

  lemma {:induction false} WordEnds(w: string, rest: string)
    requires (forall i :: 0 <= i < |w| ==> IdentChar(w[i])) && Delimits(rest)
    ensures WordLength(w + rest) == |w|
  {
    if w == [] {
      assert w + rest == rest;
    } else {
      assert (w + rest)[1..] == w[1..] + rest;
      WordEnds(w[1..], rest);
    }
  }

  lemma {:induction false} DigitsEnd(w: string, rest: string)
    requires (forall i :: 0 <= i < |w| ==> IsDigit(w[i])) && Delimits(rest)
    ensures DigitLength(w + rest) == |w|
  {
    if w == [] {
      assert w + rest == rest;
    } else {
      assert (w + rest)[1..] == w[1..] + rest;
      DigitsEnd(w[1..], rest);
    }
  }

  lemma WordTaken(reserved: set<string>, s: string, w: string)
    requires s != "" && IdentStart(s[0]) && WordLength(s) == |w| && s[..|w|] == w
    ensures FirstToken(reserved, s) == match Classify(reserved, w) case None => None case Some(t) => Some((t, |w|))
  {
  }

  lemma WordShape(w: string, rest: string)
    requires IsIdent(w) && Delimits(rest)
    ensures var s := w + rest; s != "" && IdentStart(s[0]) && WordLength(s) == |w| && s[..|w|] == w
  {
    WordEnds(w, rest);
  }

  lemma WordReads(reserved: set<string>, w: string, rest: string)
    requires IsIdent(w) && Delimits(rest)
    ensures FirstToken(reserved, w + rest) ==
            match Classify(reserved, w) case None => None case Some(t) => Some((t, |w|))
  {
    WordShape(w, rest);
    WordTaken(reserved, w + rest, w);
  }

  lemma DollarReads(reserved: set<string>, s: string, w: string)
    requires s != "" && s[0] == '$' && w != "" && DigitLength(s[1..]) == |w| && s[1..][..|w|] == w
    requires forall i :: 0 <= i < |w| ==> IsDigit(w[i])
    ensures FirstToken(reserved, s) == Some((Ph(DigitsValue(w)), |w| + 1))
  {
  }

  lemma DollarShape(w: string, rest: string)
    requires (forall i :: 0 <= i < |w| ==> IsDigit(w[i])) && Delimits(rest)
    ensures var s := "$" + w + rest;
            s != "" && s[0] == '$' && DigitLength(s[1..]) == |w| && |s[1..]| >= |w| && s[1..][..|w|] == w
  {
    DigitsEnd(w, rest);
    assert ("$" + w + rest)[1..] == w + rest;
  }

  lemma DollarThen(reserved: set<string>, w: string, rest: string)
    requires w != "" && (forall i :: 0 <= i < |w| ==> IsDigit(w[i])) && Delimits(rest)
    ensures FirstToken(reserved, "$" + w + rest) == Some((Ph(DigitsValue(w)), |w| + 1))
  {
    DollarShape(w, rest);
    DollarReads(reserved, "$" + w + rest, w);
  }

  lemma NumberReads(reserved: set<string>, n: nat, rest: string)
    requires Delimits(rest)
    ensures FirstToken(reserved, "$" + Itoa(n) + rest) == Some((Ph(n), 1 + |Itoa(n)|))
  {
    ItoaDigits(n);
    DollarThen(reserved, Itoa(n), rest);
  }

  // The first token of a printed text is the token printed first, as the server takes it.
  lemma TokenReads(reserved: set<string>, t: Token, rest: string)
    requires Printable(t) && (t.LP? || Delimits(rest))
    ensures TokenText(t) != "" && TokenText(t)[0] != ' '
    ensures FirstToken(reserved, TokenText(t) + rest) ==
            match Relex(reserved, t) case None => None case Some(u) => Some((u, |TokenText(t)|))
  {
    match t
    case Kw(k) =>
      KeywordReads(reserved, k);
      WordReads(reserved, KeywordText(k), rest);
    case Ident(name) => WordReads(reserved, name, rest);
    case Op(op) =>
      if op == Like {
        LikeReads(reserved);
        WordReads(reserved, "LIKE", rest);
      } else {
        SignReads(reserved, op, rest);
      }
    case Ph(n) => NumberReads(reserved, n, rest);
    case _ =>
  }

  lemma SignReads(reserved: set<string>, op: CmpOp, rest: string)
    requires op != Like && Delimits(rest)
    ensures FirstToken(reserved, OpText(op) + rest) == Some((Op(op), |OpText(op)|))
  {
    var s := OpText(op) + rest;
    assert rest != "" ==> s[|OpText(op)|] == rest[0];
  }

  lemma {:induction false} LexStep(reserved: set<string>, x: string, gap: string, rest: string)
    requires x != "" && x[0] != ' ' && (gap == "" || gap == " ")
    requires FirstToken(reserved, x + (gap + rest)).Some? ==> FirstToken(reserved, x + (gap + rest)).value.1 == |x|
    ensures Lex(reserved, x + gap + rest) ==
            match (FirstToken(reserved, x + (gap + rest)), Lex(reserved, rest))
            case (Some((u, _)), Some(ts)) => Some([u] + ts)
            case _ => None
  {
    var s := x + (gap + rest);
    assert s == x + gap + rest;
    assert s[0] == x[0] && s[|x|..] == gap + rest;
    if gap == " " {
      assert (gap + rest)[1..] == rest;
    } else {
      assert gap + rest == rest;
    }
  }

  lemma {:induction false} LexOne(reserved: set<string>, t: Token, gap: string, rest: string)
    requires Printable(t) && (gap == "" || gap == " ") && (t.LP? || Delimits(gap + rest))
    ensures Lex(reserved, TokenText(t) + gap + rest) ==
            match (Relex(reserved, t), Lex(reserved, rest))
            case (Some(u), Some(ts)) => Some([u] + ts)
            case _ => None
  {
    TokenReads(reserved, t, gap + rest);
    LexStep(reserved, TokenText(t), gap, rest);
  }

  lemma {:induction false} LexRendered(reserved: set<string>, ts: seq<Token>)
    requires AllPrintable(ts)
    ensures Lex(reserved, Render(ts)) == RelexAll(reserved, ts)
  {
    if |ts| == 1 {
      LexOne(reserved, ts[0], "", "");
      assert TokenText(ts[0]) + "" + "" == TokenText(ts[0]);
      assert ts[1..] == [];
    } else if ts != [] {
      var gap, rest := Gap(ts[0], ts[1]), Render(ts[1..]);
      LexRendered(reserved, ts[1..]);
      if gap == "" {
        TextStarts(ts[1..]);
      }
      LexOne(reserved, ts[0], gap, rest);
    }
  }

  lemma TextStarts(ts: seq<Token>)
    requires ts != []
    ensures ts[0].RP? || ts[0].Comma? ==> Delimits(Render(ts))
  {
  }

  lemma {:induction false} RelexKeeps(reserved: set<string>, ts: seq<Token>)
    ensures RelexAll(reserved, ts) == Some(ts) <==> AllPlain(reserved, ts)
  {
    if ts != [] {
      RelexKeeps(reserved, ts[1..]);
      assert ts == [ts[0]] + ts[1..];
      assert AllPlain(reserved, ts) <==> (ts[0].Ident? ==> PlainName(reserved, ts[0].name)) && AllPlain(reserved, ts[1..]) by {
        assert forall i :: 0 <= i < |ts| - 1 ==> ts[1..][i] == ts[i + 1];
        assert forall i :: 1 <= i < |ts| ==> ts[i] == ts[1..][i - 1];
      }
    }
  }

  /** The server splits a printed text into the tokens that were printed exactly when it takes each of
      the names in it for a name. */
  lemma TextReadsBackIff(reserved: set<string>, ts: seq<Token>)
    requires AllPrintable(ts)
    ensures Lex(reserved, Render(ts)) == Some(ts) <==> AllPlain(reserved, ts)
  {
    LexRendered(reserved, ts);
    RelexKeeps(reserved, ts);
  }

  // Placeholders of either kind are printable, so the dialect does not matter.
  lemma {:induction false} EmittedText(reserved: set<string>, d: Dialect, ts: seq<Token>)
    requires AllPrintable(ts)
    ensures |Emit(d, ts)| == |ts| && AllPrintable(Emit(d, ts))
    ensures AllPlain(reserved, Emit(d, ts)) <==> AllPlain(reserved, ts)
    ensures Lex(reserved, Render(Emit(d, ts))) == Some(Emit(d, ts)) <==> AllPlain(reserved, ts)
  {
    EmitAt(d, ts);
    TextReadsBackIff(reserved, Emit(d, ts));
    assert forall i :: 0 <= i < |ts| ==> (ts[i].Ident? <==> Emit(d, ts)[i].Ident?);
  }

  lemma {:induction false} EmitAt(d: Dialect, ts: seq<Token>)
    ensures |Emit(d, ts)| == |ts|
    ensures forall i :: 0 <= i < |ts| ==> Emit(d, ts)[i] == if ts[i].Ph? && d.Positional? then Mark else ts[i]
  {
    if ts != [] {
      EmitAt(d, ts[1..]);
    }
  }
}
