/** What route patterns mean as texts: which paths a literal, a `:x` and a `*x` below `/a` are found on,
    what they capture, and which of them wins. */
module RoutePaths {
  import opened Strings
  import opened Routes
  import opened RouteMeaning
  import Groups

  // A name: not empty and without slashes.
  predicate Part(s: string) {
    s != "" && '/' !in s
  }

  // ---------------------------------------------------------------- segments of texts

  lemma PartSplits(p: string)
    requires Part(p)
    ensures Split(p, '/') == [p] && p[0] != '/' && p[|p| - 1] != '/'
  {
    SplitWhole(p, '/');
    assert p[0] in p && p[|p| - 1] in p;
  }

  // The parts of `/a/` followed by anything that is not only slashes.
  lemma RestSplits(a: string, v: string, n: nat)
    requires Part(a) && v != "" && v[|v| - 1] != '/'
    ensures SplitPath("/" + a + "/" + v + Groups.Slashes(n)) == [a] + Split(v, '/')
  {
    var core := a + "/" + v;
    PartSplits(a);
    assert core[0] == a[0] && core[|core| - 1] == v[|v| - 1];
    Groups.TrimCore(1, core, n);
    assert Groups.Slashes(1) == Groups.Slashes(0) + "/" && Groups.Slashes(0) == "";
    assert Groups.Slashes(1) + core + Groups.Slashes(n) == "/" + a + "/" + v + Groups.Slashes(n);
    Groups.SplitJoined(a, v);
  }

  lemma OnePartSplits(a: string, n: nat)
    requires Part(a)
    ensures SplitPath("/" + a + Groups.Slashes(n)) == [a]
  {
    PartSplits(a);
    Groups.TrimCore(1, a, n);
    assert Groups.Slashes(1) == Groups.Slashes(0) + "/" && Groups.Slashes(0) == "";
    assert Groups.Slashes(1) + a + Groups.Slashes(n) == "/" + a + Groups.Slashes(n);
  }

  lemma TextSplits(a: string, b: string)
    requires Part(a) && Part(b)
    ensures SplitPath(TwoParts(a, b)) == [a, b]
  {
    PartSplits(b);
    RestSplits(a, b, 0);
    assert Groups.Slashes(0) == "" && TwoParts(a, b) + "" == TwoParts(a, b);
    assert [a] + [b] == [a, b];
  }

  // What the registration of `/a/b` leaves on record.
  function Recorded2(verb: string, a: string, b: string, handler: nat, last: Segment): Reg {
    Reg(verb, [Static(a), last], Some(RouteEntry(handler, verb, TwoParts(a, b))))
  }

  lemma PatternRecorded(verb: string, a: string, b: string, handler: nat)
    requires Literal(a) && Part(b)
    ensures Registered(verb, TwoParts(a, b), handler) == Recorded2(verb, a, b, handler, SegmentOf(b))
    ensures Literal(b) ==> SegmentOf(b) == Static(b)
  {
    TextSplits(a, b);
    var segs := Segments([a, b]);
    assert segs == [Static(a), SegmentOf(b)];
    assert FirstInnerFrom(segs, 2) == None && FirstInnerFrom(segs, 1) == None && FirstInnerFrom(segs, 0) == None;
  }

  lemma MarkedSegments(x: string)
    requires Part(x)
    ensures Part(":" + x) && SegmentOf(":" + x) == Param(x)
    ensures Part("*" + x) && SegmentOf("*" + x) == Wildcard(x)
  {
    assert (":" + x)[1..] == x && ("*" + x)[1..] == x;
  }

  // ---------------------------------------------------------------- one registration

  function Under(verb: string, a: string): Key {
    Below(Root(verb), Exactly(a))
  }

  // The walk gets to the second part if there are registrations under the first.
  lemma WalkUnder(regs: seq<Reg>, verb: string, a: string, rest: seq<string>)
    requires Present(regs, Root(verb)) && Present(regs, Under(verb, a))
    ensures Walk(regs, Root(verb), [a] + rest, []) == Walk(regs, Under(verb, a), rest, [])
  {
    assert ([a] + rest)[1..] == rest;
  }

  lemma OnlyReg(r: Reg, verb: string, a: string, s: Segment, k: Key)
    requires r.verb == verb && r.segs == [Static(a), s]
    ensures Present([r], k) <==> k == Root(verb) || k == Under(verb, a) || k == Below(Under(verb, a), EdgeOf(s))
    ensures LastEntry([r], k) == if k == Below(Under(verb, a), EdgeOf(s)) then r.entry else None
    ensures FirstName([r], Below(Under(verb, a), EdgeOf(s))) == Some(s.value)
  {
    var last := Below(Under(verb, a), EdgeOf(s));
    TwoSegments(r, k, Static(a), s);
    TwoSegments(r, last, Static(a), s);
    OneReg(r, k);
    assert [r][..0] == [] && FirstName([], last) == None;
    assert Depth(last) == 2;
  }

  lemma WildcardOnly(verb: string, a: string, x: string, handler: nat)
    requires Literal(a) && Part(x)
    ensures var r := Registered(verb, TwoParts(a, "*" + x), handler);
            && (forall k :: Present([r], k) <==> k == Root(verb) || k == Under(verb, a) || k == Below(Under(verb, a), AnyRest))
            && LastEntry([r], Below(Under(verb, a), AnyRest)) == Some(RouteEntry(handler, verb, TwoParts(a, "*" + x)))
            && LastEntry([r], Under(verb, a)) == None && FirstName([r], Below(Under(verb, a), AnyRest)) == Some(x)
  {
    MarkedSegments(x);
    PatternRecorded(verb, a, "*" + x, handler);
    var r := Registered(verb, TwoParts(a, "*" + x), handler);
    forall k { OnlyReg(r, verb, a, Wildcard(x), k); }
  }

  /** A last part `*x` below `/a` is found on every path that goes on after `/a/` with more than slashes,
      and captures under `x` what follows, without the slashes at its end.  It is not found on `/a`. */
  lemma WildcardTakesRest(verb: string, a: string, x: string, v: string, n: nat, handler: nat)
    requires Literal(a) && Part(x) && v != "" && v[|v| - 1] != '/'
    ensures var pattern := TwoParts(a, "*" + x);
            && GreedyFind([Registered(verb, pattern, handler)], verb, "/" + a + "/" + v + Groups.Slashes(n)) ==
               Hit(RouteEntry(handler, verb, pattern), [RouteParam(x, v)])
            && GreedyFind([Registered(verb, pattern, handler)], verb, "/" + a + Groups.Slashes(n)) == Miss([])
  {
    var r := Registered(verb, TwoParts(a, "*" + x), handler);
    WildcardOnly(verb, a, x, handler);
    RestSplits(a, v, n);
    OnePartSplits(a, n);
    JoinSplit(v);
    WalkUnder([r], verb, a, Split(v, '/'));
    WalkUnder([r], verb, a, []);
    assert [a] + [] == [a];
    assert [] + [RouteParam(x, v)] == [RouteParam(x, v)];
  }

  /** A last part `:x` below `/a` is found on every path of one more part and captures it under `x`, the
      name without the colon; on longer and shorter paths it is not found. */
  lemma ParamTakesPart(verb: string, a: string, x: string, p: string, q: string, n: nat, handler: nat)
    requires Literal(a) && Part(x) && Part(p) && q != "" && q[|q| - 1] != '/'
    ensures var pattern := TwoParts(a, ":" + x);
            var regs := [Registered(verb, pattern, handler)];
            && GreedyFind(regs, verb, TwoParts(a, p)) == Hit(RouteEntry(handler, verb, pattern), [RouteParam(x, p)])
            && GreedyFind(regs, verb, TwoParts(a, p + "/" + q)).Miss?
            && GreedyFind(regs, verb, "/" + a + Groups.Slashes(n)).Miss?
  {
    MarkedSegments(x);
    PatternRecorded(verb, a, ":" + x, handler);
    var r := Registered(verb, TwoParts(a, ":" + x), handler);
    forall k { OnlyReg(r, verb, a, Param(x), k); }
    TextSplits(a, p);
    OnePartSplits(a, n);
    PairSplits(a, p, q);
    WalkUnder([r], verb, a, [p]);
    WalkUnder([r], verb, a, [p] + Split(q, '/'));
    WalkUnder([r], verb, a, []);
    WalkParam([r], verb, a, x, p, Split(q, '/'));
    assert [a] + [p] == [a, p] && [a] + [] == [a];
    assert [p][1..] == [] && [] + [RouteParam(x, p)] == [RouteParam(x, p)];
  }

  lemma PairSplits(a: string, p: string, q: string)
    requires Part(a) && Part(p) && q != "" && q[|q| - 1] != '/'
    ensures SplitPath(TwoParts(a, p + "/" + q)) == [a] + ([p] + Split(q, '/')) && Split(q, '/') != []
  {
    var v := p + "/" + q;
    RestSplits(a, v, 0);
    assert Groups.Slashes(0) == "" && TwoParts(a, v) + "" == TwoParts(a, v);
    Groups.SplitJoined(p, q);
    PartSplits(p);
    JoinSplit(q);
  }

  // Nothing is below a parameter that ends its pattern.
  lemma WalkParam(regs: seq<Reg>, verb: string, a: string, x: string, p: string, rest: seq<string>)
    requires rest != [] && !Present(regs, Below(Under(verb, a), Exactly(p))) && Present(regs, Below(Under(verb, a), AnyPart))
    requires forall e :: !Present(regs, Below(Below(Under(verb, a), AnyPart), e))
    ensures Walk(regs, Under(verb, a), [p] + rest, []).Miss?
  {
    assert ([p] + rest)[1..] == rest;
  }

  /** A literal last part below `/a` is found on itself and on no other part; a colon or a star alone is
      such a literal. */
  lemma LiteralTakesItself(verb: string, a: string, b: string, p: string, handler: nat)
    requires Literal(a) && Part(p) && (Literal(b) || b == ":" || b == "*")
    ensures var pattern := TwoParts(a, b);
            GreedyFind([Registered(verb, pattern, handler)], verb, TwoParts(a, p)) ==
            if p == b then Hit(RouteEntry(handler, verb, pattern), []) else Miss([])
  {
    PatternRecorded(verb, a, b, handler);
    var r := Registered(verb, TwoParts(a, b), handler);
    forall k { OnlyReg(r, verb, a, Static(b), k); }
    TextSplits(a, p);
    WalkUnder([r], verb, a, [p]);
    assert [a] + [p] == [a, p] && [p][1..] == [];
  }

  /** A registration is found under its own method only. */
  lemma OtherMethodMisses(verb: string, other: string, path: string, pattern: string, handler: nat)
    requires other != verb
    ensures GreedyFind([Registered(verb, pattern, handler)], other, path) == Miss([])
  {
    OneReg(Registered(verb, pattern, handler), Root(other));
  }

  // ---------------------------------------------------------------- two registrations

  lemma TwoRegs(r1: Reg, r2: Reg, verb: string, a: string, s1: Segment, s2: Segment, k: Key)
    requires r1.verb == r2.verb == verb && r1.segs == [Static(a), s1] && r2.segs == [Static(a), s2] && r1.entry.Some? && r2.entry.Some?
    ensures var k1, k2 := Below(Under(verb, a), EdgeOf(s1)), Below(Under(verb, a), EdgeOf(s2));
            && (Present([r1, r2], k) <==> k == Root(verb) || k == Under(verb, a) || k == k1 || k == k2)
            && LastEntry([r1, r2], k) == (if k == k2 then r2.entry else if k == k1 then r1.entry else None)
            && FirstName([r1, r2], k1) == Some(s1.value)
            && (k1 != k2 ==> FirstName([r1, r2], k2) == Some(s2.value))
  {
    var k1, k2 := Below(Under(verb, a), EdgeOf(s1)), Below(Under(verb, a), EdgeOf(s2));
    assert [r1] + [r2] == [r1, r2];
    OnlyReg(r1, verb, a, s1, k);
    OnlyReg(r1, verb, a, s1, k1);
    OnlyReg(r1, verb, a, s1, k2);
    AppendReg([r1], r2, k);
    AppendReg([r1], r2, k1);
    AppendReg([r1], r2, k2);
    TwoSegments(r2, k, Static(a), s2);
    TwoSegments(r2, k2, Static(a), s2);
    assert Depth(k2) == 2;
  }

  ghost predicate InEitherOrder(regs: seq<Reg>, r1: Reg, r2: Reg) {
    regs == [r1, r2] || regs == [r2, r1]
  }

  // Two registrations that end at different places below `a`, whichever came first.
  lemma EitherOrder(regs: seq<Reg>, r1: Reg, r2: Reg, verb: string, a: string, s1: Segment, s2: Segment)
    requires InEitherOrder(regs, r1, r2) && EdgeOf(s1) != EdgeOf(s2) && r1.entry.Some? && r2.entry.Some?
    requires r1.verb == r2.verb == verb && r1.segs == [Static(a), s1] && r2.segs == [Static(a), s2]
    ensures var k1, k2 := Below(Under(verb, a), EdgeOf(s1)), Below(Under(verb, a), EdgeOf(s2));
            && (forall k :: Present(regs, k) <==> k == Root(verb) || k == Under(verb, a) || k == k1 || k == k2)
            && LastEntry(regs, k1) == r1.entry && LastEntry(regs, k2) == r2.entry && LastEntry(regs, Under(verb, a)) == None
            && FirstName(regs, k1) == Some(s1.value) && FirstName(regs, k2) == Some(s2.value)
  {
    var k1, k2 := Below(Under(verb, a), EdgeOf(s1)), Below(Under(verb, a), EdgeOf(s2));
    forall k ensures Present(regs, k) <==> k == Root(verb) || k == Under(verb, a) || k == k1 || k == k2 {
      if regs == [r1, r2] { TwoRegs(r1, r2, verb, a, s1, s2, k); } else { TwoRegs(r2, r1, verb, a, s2, s1, k); }
    }
    forall k | k in {k1, k2, Under(verb, a)}
      ensures LastEntry(regs, k) == if k == k1 then r1.entry else if k == k2 then r2.entry else None
      ensures FirstName(regs, k1) == Some(s1.value) && FirstName(regs, k2) == Some(s2.value)
    {
      if regs == [r1, r2] { TwoRegs(r1, r2, verb, a, s1, s2, k); } else { TwoRegs(r2, r1, verb, a, s2, s1, k); }
    }
    assert k1 in {k1, k2, Under(verb, a)};
  }

  /** Whichever was registered first, a literal wins over a parameter, and any other part goes to the
      parameter. */
  lemma LiteralBeforeParam(regs: seq<Reg>, verb: string, a: string, b: string, x: string, p: string, h1: nat, h2: nat)
    requires Literal(a) && Literal(b) && Part(x) && Part(p)
    requires InEitherOrder(regs, Registered(verb, TwoParts(a, b), h1), Registered(verb, TwoParts(a, ":" + x), h2))
    ensures GreedyFind(regs, verb, TwoParts(a, p)) ==
            if p == b then Hit(RouteEntry(h1, verb, TwoParts(a, b)), [])
            else Hit(RouteEntry(h2, verb, TwoParts(a, ":" + x)), [RouteParam(x, p)])
  {
    MarkedSegments(x);
    PatternRecorded(verb, a, b, h1);
    PatternRecorded(verb, a, ":" + x, h2);
    var r1, r2 := Registered(verb, TwoParts(a, b), h1), Registered(verb, TwoParts(a, ":" + x), h2);
    EitherOrder(regs, r1, r2, verb, a, Static(b), Param(x));
    TextSplits(a, p);
    WalkUnder(regs, verb, a, [p]);
    assert [a] + [p] == [a, p] && [p][1..] == [];
    assert [] + [RouteParam(x, p)] == [RouteParam(x, p)];
  }

  lemma ParamAndWildcard(regs: seq<Reg>, verb: string, a: string, x: string, y: string, h1: nat, h2: nat)
    requires Literal(a) && Part(x) && Part(y)
    requires InEitherOrder(regs, Registered(verb, TwoParts(a, ":" + x), h1), Registered(verb, TwoParts(a, "*" + y), h2))
    ensures var k1, k2 := Below(Under(verb, a), AnyPart), Below(Under(verb, a), AnyRest);
            && (forall k :: Present(regs, k) <==> k == Root(verb) || k == Under(verb, a) || k == k1 || k == k2)
            && LastEntry(regs, k1) == Some(RouteEntry(h1, verb, TwoParts(a, ":" + x))) && FirstName(regs, k1) == Some(x)
  {
    MarkedSegments(x);
    MarkedSegments(y);
    PatternRecorded(verb, a, ":" + x, h1);
    PatternRecorded(verb, a, "*" + y, h2);
    var r1, r2 := Registered(verb, TwoParts(a, ":" + x), h1), Registered(verb, TwoParts(a, "*" + y), h2);
    EitherOrder(regs, r1, r2, verb, a, Param(x), Wildcard(y));
  }

  /** Whichever was registered first, a parameter wins over a wildcard. */
  lemma ParamBeforeWildcard(regs: seq<Reg>, verb: string, a: string, x: string, y: string, p: string, h1: nat, h2: nat)
    requires Literal(a) && Part(x) && Part(y) && Part(p)
    requires InEitherOrder(regs, Registered(verb, TwoParts(a, ":" + x), h1), Registered(verb, TwoParts(a, "*" + y), h2))
    ensures GreedyFind(regs, verb, TwoParts(a, p)) == Hit(RouteEntry(h1, verb, TwoParts(a, ":" + x)), [RouteParam(x, p)])
  {
    ParamAndWildcard(regs, verb, a, x, y, h1, h2);
    TextSplits(a, p);
    WalkUnder(regs, verb, a, [p]);
    assert [a] + [p] == [a, p] && [p][1..] == [];
    assert [] + [RouteParam(x, p)] == [RouteParam(x, p)];
  }

  /** It does so even on a path that is too long for it, which is then not found. */
  lemma ParamHidesWildcard(regs: seq<Reg>, verb: string, a: string, x: string, y: string, p: string, q: string, h1: nat, h2: nat)
    requires Literal(a) && Part(x) && Part(y) && Part(p) && q != "" && q[|q| - 1] != '/'
    requires InEitherOrder(regs, Registered(verb, TwoParts(a, ":" + x), h1), Registered(verb, TwoParts(a, "*" + y), h2))
    ensures GreedyFind(regs, verb, TwoParts(a, p + "/" + q)).Miss?
  {
    ParamAndWildcard(regs, verb, a, x, y, h1, h2);
    PairSplits(a, p, q);
    WalkUnder(regs, verb, a, [p] + Split(q, '/'));
    WalkParam(regs, verb, a, x, p, Split(q, '/'));
  }

  /** Whichever was registered first, a literal wins over a wildcard, and any other part goes to the
      wildcard. */
  lemma LiteralBeforeWildcard(regs: seq<Reg>, verb: string, a: string, b: string, y: string, p: string, h1: nat, h2: nat)
    requires Literal(a) && Literal(b) && Part(y) && Part(p)
    requires InEitherOrder(regs, Registered(verb, TwoParts(a, b), h1), Registered(verb, TwoParts(a, "*" + y), h2))
    ensures GreedyFind(regs, verb, TwoParts(a, p)) ==
            if p == b then Hit(RouteEntry(h1, verb, TwoParts(a, b)), [])
            else Hit(RouteEntry(h2, verb, TwoParts(a, "*" + y)), [RouteParam(y, p)])
  {
    MarkedSegments(y);
    PatternRecorded(verb, a, b, h1);
    PatternRecorded(verb, a, "*" + y, h2);
    var r1, r2 := Registered(verb, TwoParts(a, b), h1), Registered(verb, TwoParts(a, "*" + y), h2);
    EitherOrder(regs, r1, r2, verb, a, Static(b), Wildcard(y));
    TextSplits(a, p);
    WalkUnder(regs, verb, a, [p]);
    assert [a] + [p] == [a, p] && [p][1..] == [];
    assert [] + [RouteParam(y, p)] == [RouteParam(y, p)];
  }

  /** Of two registrations at the same place the later one answers, under the name of the earlier one. */
  lemma LaterAnswers(verb: string, a: string, x: string, y: string, p: string, h1: nat, h2: nat)
    requires Literal(a) && Part(x) && Part(y) && Part(p)
    ensures var older, newer := Registered(verb, TwoParts(a, ":" + x), h1), Registered(verb, TwoParts(a, ":" + y), h2);
            GreedyFind([older, newer], verb, TwoParts(a, p)) == Hit(RouteEntry(h2, verb, TwoParts(a, ":" + y)), [RouteParam(x, p)])
  {
    MarkedSegments(x);
    MarkedSegments(y);
    PatternRecorded(verb, a, ":" + x, h1);
    PatternRecorded(verb, a, ":" + y, h2);
    var r1, r2 := Registered(verb, TwoParts(a, ":" + x), h1), Registered(verb, TwoParts(a, ":" + y), h2);
    forall k { TwoRegs(r1, r2, verb, a, Param(x), Param(y), k); }
    TextSplits(a, p);
    WalkUnder([r1, r2], verb, a, [p]);
    assert [a] + [p] == [a, p] && [p][1..] == [];
    assert [] + [RouteParam(x, p)] == [RouteParam(x, p)];
  }
}
