/** What a route lookup means in terms of patterns: a hit is a registered pattern that matches and
    rebuilds the path; without mixed child kinds every matching pattern is found. */
module RouteMeaning {
  import opened Strings
  import opened Routes
  import Groups

  // ---------------------------------------------------------------- patterns

  predicate PartFits(seg: Segment, part: string) {
    seg.Static? ==> seg.value == part
  }

  // A trailing wildcard takes one part or more; everything else takes exactly one.
  predicate PatternMatches(segs: seq<Segment>, parts: seq<string>) {
    var open := segs != [] && segs[|segs| - 1].Wildcard?;
    && (if open then |parts| >= |segs| else |parts| == |segs|)
    && forall i :: 0 <= i < |segs| ==> PartFits(segs[i], parts[i])
  }

  function Holes(segs: seq<Segment>): nat {
    if segs == [] then 0
    else Holes(segs[..|segs| - 1]) + if segs[|segs| - 1].Static? then 0 else 1
  }

  // The pattern with its parameters and wildcard replaced by values, from left to right.
  function Substitute(segs: seq<Segment>, values: seq<string>): seq<string>
    requires Holes(segs) == |values|
  {
    if segs == [] then []
    else
      var init, last := segs[..|segs| - 1], segs[|segs| - 1];
      if last.Static? then Substitute(init, values) + [last.value]
      else Substitute(init, values[..|values| - 1]) + [values[|values| - 1]]
  }

  function Values(params: seq<RouteParam>): seq<string> {
    seq(|params|, i requires 0 <= i < |params| => params[i].value)
  }

  // ---------------------------------------------------------------- registrations of a history of calls

  datatype Call = Call(verb: string, path: string, handler: nat)

  function RegsOf(calls: seq<Call>): seq<Reg> {
    seq(|calls|, i requires 0 <= i < |calls| => Registered(calls[i].verb, calls[i].path, calls[i].handler))
  }

  lemma {:induction false} HistoryWildcardsLast(calls: seq<Call>, i: nat)
    requires i < |calls|
    ensures WildcardsLast(RegsOf(calls)[i].segs)
  {
    var c := calls[i];
    RecordedWildcardsLast(c.verb, Segments(SplitPath(c.path)), RouteEntry(c.handler, c.verb, c.path));
  }

  lemma {:induction false} HistoryAllLast(calls: seq<Call>)
    ensures AllLast(RegsOf(calls))
  {
    forall i | 0 <= i < |calls| ensures WildcardsLast(RegsOf(calls)[i].segs) {
      HistoryWildcardsLast(calls, i);
    }
  }

  lemma {:induction false} PresentBy(regs: seq<Reg>, k: Key) returns (i: nat)
    requires Present(regs, k)
    ensures i < |regs| && Through(regs[i], k)
  {
    var init := regs[..|regs| - 1];
    if Present(init, k) {
      i := PresentBy(init, k);
    } else {
      i := |regs| - 1;
    }
  }

  lemma {:induction false} ThroughPresent(regs: seq<Reg>, k: Key, i: nat)
    requires i < |regs| && Through(regs[i], k)
    ensures Present(regs, k)
  {
    if i < |regs| - 1 {
      ThroughPresent(regs[..|regs| - 1], k, i);
    }
  }

  lemma {:induction false} EntryBy(regs: seq<Reg>, k: Key) returns (i: nat)
    requires LastEntry(regs, k).Some?
    ensures i < |regs| && KeyOf(regs[i]) == k && regs[i].entry == LastEntry(regs, k)
  {
    var r := regs[|regs| - 1];
    if KeyOf(r) == k && r.entry.Some? {
      i := |regs| - 1;
    } else {
      i := EntryBy(regs[..|regs| - 1], k);
    }
  }

  lemma {:induction false} EntryLast(regs: seq<Reg>, k: Key, i: nat)
    requires i < |regs| && KeyOf(regs[i]) == k && regs[i].entry.Some?
    ensures LastEntry(regs, k).Some?
  {
    if i < |regs| - 1 {
      EntryLast(regs[..|regs| - 1], k, i);
    }
  }

  lemma {:induction false} NothingBelowWildcard(r: Reg, k: Key, e: Edge)
    requires WildcardsLast(r.segs)
    ensures !Through(r, Below(Below(k, AnyRest), e))
  {
    var n := Depth(k) + 1;
    assert Depth(Below(Below(k, AnyRest), e)) == n + 1;
    if n < |r.segs| {
      assert KeyAt(r.verb, r.segs, n + 1).up == KeyAt(r.verb, r.segs, n);
      assert KeyAt(r.verb, r.segs, n).edge == EdgeOf(r.segs[n - 1]);
    }
  }

  /** However many registrations follow, a place keeps the name its first registration gave it. */
  lemma {:induction false} NamesAreKept(regs: seq<Reg>, more: seq<Reg>, k: Key)
    requires Present(regs, k)
    ensures FirstName(regs + more, k) == FirstName(regs, k)
  {
    if more == [] {
      assert regs + more == regs;
    } else {
      var init, last := more[..|more| - 1], more[|more| - 1];
      NamesAreKept(regs, init, k);
      AppendReg(regs + init, last, k);
      assert regs + more == (regs + init) + [last];
    }
  }

  /** Whatever was registered, no place lies below a wildcard. */
  lemma {:induction false} WildcardsHaveNoChildren(calls: seq<Call>, k: Key, e: Edge)
    ensures !Present(RegsOf(calls), Below(Below(k, AnyRest), e))
  {
    HistoryAllLast(calls);
    if Present(RegsOf(calls), Below(Below(k, AnyRest), e)) {
      var i := PresentBy(RegsOf(calls), Below(Below(k, AnyRest), e));
      NothingBelowWildcard(RegsOf(calls)[i], k, e);
    }
  }

  // ---------------------------------------------------------------- a place knows its pattern up to names

  function KeyHoles(k: Key): nat {
    if k.Root? then 0 else KeyHoles(k.up) + if k.edge.Exactly? then 0 else 1
  }

  function KeyFill(k: Key, values: seq<string>): seq<string>
    requires KeyHoles(k) == |values|
  {
    if k.Root? then []
    else if k.edge.Exactly? then KeyFill(k.up, values) + [k.edge.part]
    else KeyFill(k.up, values[..|values| - 1]) + [values[|values| - 1]]
  }

  // The parts walked so far fit the edges; only a closed place (no wildcard) is walked through.
  predicate KeyFits(k: Key, parts: seq<string>) {
    if k.Root? then parts == []
    else
      && parts != [] && k.edge != AnyRest
      && (k.edge.Exactly? ==> k.edge.part == parts[|parts| - 1])
      && KeyFits(k.up, parts[..|parts| - 1])
  }

  function VerbOf(k: Key): string {
    if k.Root? then k.verb else VerbOf(k.up)
  }

  lemma {:induction false} KeyAtMeans(verb: string, segs: seq<Segment>, values: seq<string>)
    ensures VerbOf(KeyAt(verb, segs, |segs|)) == verb
    ensures KeyHoles(KeyAt(verb, segs, |segs|)) == Holes(segs)
    ensures Holes(segs) == |values| ==> KeyFill(KeyAt(verb, segs, |segs|), values) == Substitute(segs, values)
  {
    if segs != [] {
      var init, last := segs[..|segs| - 1], segs[|segs| - 1];
      KeyPrefix(verb, segs, |segs| - 1, |segs| - 1);
      KeyAtMeans(verb, init, if last.Static? || values == [] then values else values[..|values| - 1]);
    }
  }

  lemma {:induction false} KeyFitsMeans(verb: string, segs: seq<Segment>, parts: seq<string>)
    requires KeyFits(KeyAt(verb, segs, |segs|), parts)
    ensures |parts| == |segs| && forall i :: 0 <= i < |segs| ==> PartFits(segs[i], parts[i]) && !segs[i].Wildcard?
  {
    if segs != [] {
      var init := segs[..|segs| - 1];
      KeyPrefix(verb, segs, |segs| - 1, |segs| - 1);
      KeyFitsMeans(verb, init, parts[..|parts| - 1]);
    }
  }

  // ---------------------------------------------------------------- shadowing

  // No edge that the walk tries earlier is present beside this one.
  predicate Preferred(regs: seq<Reg>, up: Key, edge: Edge, part: string) {
    match edge
    case Exactly(_) => true
    case AnyPart => !Present(regs, Below(up, Exactly(part)))
    case AnyRest => !Present(regs, Below(up, Exactly(part))) && !Present(regs, Below(up, AnyPart))
  }

  // Every edge of the pattern is the one the walk prefers on these parts.
  predicate Unshadowed(regs: seq<Reg>, r: Reg, parts: seq<string>)
    requires |r.segs| <= |parts|
  {
    forall i :: 0 <= i < |r.segs| ==> Preferred(regs, KeyAt(r.verb, r.segs, i), EdgeOf(r.segs[i]), parts[i])
  }

  // The edges down to `k` were all preferred on the parts that led there.
  predicate KeyPreferred(regs: seq<Reg>, k: Key, parts: seq<string>) {
    k.Below? && parts != [] ==>
      && Preferred(regs, k.up, k.edge, parts[|parts| - 1])
      && KeyPreferred(regs, k.up, parts[..|parts| - 1])
  }

  lemma {:induction false} KeyPreferredAt(regs: seq<Reg>, verb: string, segs: seq<Segment>, n: nat, parts: seq<string>, i: nat)
    requires n <= |segs| && |parts| == n && KeyPreferred(regs, KeyAt(verb, segs, n), parts) && i < n
    ensures Preferred(regs, KeyAt(verb, segs, i), EdgeOf(segs[i]), parts[i])
  {
    if i < n - 1 {
      KeyPreferredAt(regs, verb, segs, n - 1, parts[..n - 1], i);
    }
  }

  // ---------------------------------------------------------------- hits are sound

  lemma {:induction false} JoinTail(a: seq<string>, b: seq<string>)
    requires b != []
    ensures Join(a + [Join(b)]) == Join(a + b)
  {
    if a == [] {
      assert a + [Join(b)] == [Join(b)] && a + b == b;
    } else {
      JoinTail(a[1..], b);
      assert (a + [Join(b)])[1..] == a[1..] + [Join(b)] && (a + b)[1..] == a[1..] + b;
    }
  }

  // Registration r explains the hit: it carries the entry, its pattern matches and is not shadowed,
  // and filling the captured values into it gives the joined parts.
  ghost predicate Explains(regs: seq<Reg>, r: Reg, verb: string, parts: seq<string>, m: Match)
    requires m.Hit?
  {
    && r.entry == Some(m.entry) && r.verb == verb
    && PatternMatches(r.segs, parts) && Unshadowed(regs, r, parts)
    && Holes(r.segs) == |m.params|
    && Join(Substitute(r.segs, Values(m.params))) == Join(parts)
  }

  lemma {:induction false} LandExplained(regs: seq<Reg>, k: Key, params: seq<RouteParam>, parts: seq<string>)
    requires KeyFits(k, parts) && KeyPreferred(regs, k, parts) && KeyHoles(k) == |params| && KeyFill(k, Values(params)) == parts
    requires LastEntry(regs, k).Some?
    ensures exists i :: 0 <= i < |regs| && Explains(regs, regs[i], VerbOf(k), parts, Land(regs, k, params))
  {
    var i := EntryBy(regs, k);
    var r := regs[i];
    KeyAtMeans(r.verb, r.segs, Values(params));
    KeyFitsMeans(r.verb, r.segs, parts);
    forall j | 0 <= j < |r.segs| ensures Preferred(regs, KeyAt(r.verb, r.segs, j), EdgeOf(r.segs[j]), parts[j]) {
      KeyPreferredAt(regs, r.verb, r.segs, |r.segs|, parts, j);
    }
    assert Explains(regs, r, VerbOf(k), parts, Land(regs, k, params));
  }

  // The same at a wildcard, which takes all that is left of the path.
  lemma {:induction false} WildcardShape(regs: seq<Reg>, r: Reg, k: Key, taken: seq<string>, rest: seq<string>)
    requires KeyFits(k, taken) && KeyPreferred(regs, k, taken) && rest != []
    requires KeyOf(r) == Below(k, AnyRest) && Preferred(regs, k, AnyRest, rest[0])
    ensures r.verb == VerbOf(k) && PatternMatches(r.segs, taken + rest) && Unshadowed(regs, r, taken + rest)
  {
    var n := |r.segs| - 1;
    var init := r.segs[..n];
    KeyPrefix(r.verb, r.segs, n, n);
    assert KeyAt(r.verb, init, |init|) == k;
    KeyAtMeans(r.verb, init, []);
    KeyFitsMeans(r.verb, init, taken);
    forall i | 0 <= i < n
      ensures PartFits(r.segs[i], (taken + rest)[i])
      ensures Preferred(regs, KeyAt(r.verb, r.segs, i), EdgeOf(r.segs[i]), (taken + rest)[i])
    {
      KeyPreferredAt(regs, r.verb, r.segs, n, taken, i);
      assert init[i] == r.segs[i] && (taken + rest)[i] == taken[i];
    }
  }

  lemma {:induction false} WildcardFilled(r: Reg, k: Key, params: seq<RouteParam>, taken: seq<string>, rest: seq<string>, ps: seq<RouteParam>)
    requires KeyHoles(k) == |params| && KeyFill(k, Values(params)) == taken && rest != []
    requires KeyOf(r) == Below(k, AnyRest)
    requires |ps| == |params| + 1 && ps[..|params|] == params && ps[|params|].value == Join(rest)
    ensures Holes(r.segs) == |ps| && Join(Substitute(r.segs, Values(ps))) == Join(taken + rest)
  {
    assert Values(ps)[..|params|] == Values(params);
    KeyAtMeans(r.verb, r.segs, Values(ps));
    JoinTail(taken, rest);
  }

  lemma {:induction false} WildcardExplained(regs: seq<Reg>, k: Key, params: seq<RouteParam>, taken: seq<string>, rest: seq<string>, name: string)
    requires KeyFits(k, taken) && KeyPreferred(regs, k, taken) && KeyHoles(k) == |params| && KeyFill(k, Values(params)) == taken
    requires rest != [] && Preferred(regs, k, AnyRest, rest[0])
    requires LastEntry(regs, Below(k, AnyRest)).Some?
    ensures exists i :: 0 <= i < |regs| &&
                        Explains(regs, regs[i], VerbOf(k), taken + rest, Land(regs, Below(k, AnyRest), params + [RouteParam(name, Join(rest))]))
  {
    var c, ps := Below(k, AnyRest), params + [RouteParam(name, Join(rest))];
    var i := EntryBy(regs, c);
    WildcardShape(regs, regs[i], k, taken, rest);
    WildcardFilled(regs[i], k, params, taken, rest, ps);
    assert Explains(regs, regs[i], VerbOf(k), taken + rest, Land(regs, c, ps));
  }

  lemma {:induction false} WalkExplained(regs: seq<Reg>, k: Key, parts: seq<string>, params: seq<RouteParam>, taken: seq<string>)
    requires KeyFits(k, taken) && KeyPreferred(regs, k, taken) && KeyHoles(k) == |params| && KeyFill(k, Values(params)) == taken
    requires Walk(regs, k, parts, params).Hit?
    ensures exists i :: 0 <= i < |regs| && Explains(regs, regs[i], VerbOf(k), taken + parts, Walk(regs, k, parts, params))
    decreases |parts|
  {
    if parts == [] {
      assert taken + parts == taken;
      LandExplained(regs, k, params, taken);
    } else {
      var p, rest := parts[0], parts[1..];
      assert taken + [p] + rest == taken + parts;
      assert (taken + [p])[..|taken|] == taken;
      if Present(regs, Below(k, Exactly(p))) {
        WalkExplained(regs, Below(k, Exactly(p)), rest, params, taken + [p]);
      } else if Present(regs, Below(k, AnyPart)) {
        var ps := params + [RouteParam(NameOr(FirstName(regs, Below(k, AnyPart))), p)];
        assert Values(ps)[..|params|] == Values(params);
        WalkExplained(regs, Below(k, AnyPart), rest, ps, taken + [p]);
      } else {
        WildcardExplained(regs, k, params, taken, parts, NameOr(FirstName(regs, Below(k, AnyRest))));
      }
    }
  }

  /** Every hit comes from a registration of that method whose pattern matches the path, and the
      captured values put back into the pattern give the path without outer slashes. */
  lemma {:induction false} HitsAreSound(regs: seq<Reg>, verb: string, path: string)
    requires GreedyFind(regs, verb, path).Hit?
    ensures exists i :: 0 <= i < |regs| && Explains(regs, regs[i], verb, SplitPath(path), GreedyFind(regs, verb, path))
    ensures Join(SplitPath(path)) == TrimSlashes(path)
  {
    WalkExplained(regs, Root(verb), SplitPath(path), [], []);
    assert [] + SplitPath(path) == SplitPath(path);
    SplitPathJoins(path);
  }

  // ---------------------------------------------------------------- which lookups hit

  ghost predicate Finds(regs: seq<Reg>, i: nat, verb: string, parts: seq<string>) {
    i < |regs| && regs[i].entry.Some? && regs[i].verb == verb && PatternMatches(regs[i].segs, parts)
  }

  lemma {:induction false} ThroughAt(regs: seq<Reg>, i: nat, n: nat)
    requires i < |regs| && n <= |regs[i].segs|
    ensures Present(regs, KeyAt(regs[i].verb, regs[i].segs, n))
  {
    KeyDepth(regs[i].verb, regs[i].segs, n);
    ThroughPresent(regs, KeyAt(regs[i].verb, regs[i].segs, n), i);
  }

  // What a step along a preferred edge captures.
  function Captured(regs: seq<Reg>, k: Key, edge: Edge, part: string): seq<RouteParam> {
    if edge.Exactly? then [] else [RouteParam(NameOr(FirstName(regs, Below(k, edge))), part)]
  }

  lemma {:induction false} WalkStep(regs: seq<Reg>, k: Key, edge: Edge, parts: seq<string>, params: seq<RouteParam>)
    requires parts != [] && Present(regs, Below(k, edge)) && Preferred(regs, k, edge, parts[0])
    requires edge.Exactly? ==> edge.part == parts[0]
    ensures Walk(regs, k, parts, params) ==
            if edge.AnyRest? then Land(regs, Below(k, edge), params + Captured(regs, k, edge, Join(parts)))
            else Walk(regs, Below(k, edge), parts[1..], params + Captured(regs, k, edge, parts[0]))
  {
    if edge.Exactly? {
      assert params + [] == params;
    }
  }

  // The walk can follow segment n of the pattern.
  predicate Follows(regs: seq<Reg>, r: Reg, parts: seq<string>, n: nat)
    requires n < |r.segs| <= |parts|
  {
    && Preferred(regs, KeyAt(r.verb, r.segs, n), EdgeOf(r.segs[n]), parts[n])
    && PartFits(r.segs[n], parts[n])
    && (r.segs[n].Wildcard? ==> n == |r.segs| - 1)
  }

  lemma {:induction false} FollowedStep(regs: seq<Reg>, i: nat, parts: seq<string>, n: nat, params: seq<RouteParam>)
    requires i < |regs| && n < |regs[i].segs| <= |parts| && Follows(regs, regs[i], parts, n)
    ensures var k, edge := KeyAt(regs[i].verb, regs[i].segs, n), EdgeOf(regs[i].segs[n]);
            Walk(regs, k, parts[n..], params) ==
            if edge.AnyRest? then Land(regs, KeyOf(regs[i]), params + Captured(regs, k, edge, Join(parts[n..])))
            else Walk(regs, KeyAt(regs[i].verb, regs[i].segs, n + 1), parts[n + 1..], params + Captured(regs, k, edge, parts[n]))
  {
    ThroughAt(regs, i, n + 1);
    WalkStep(regs, KeyAt(regs[i].verb, regs[i].segs, n), EdgeOf(regs[i].segs[n]), parts[n..], params);
    assert parts[n..][1..] == parts[n + 1..];
  }

  lemma {:induction false} FollowedToTheEnd(regs: seq<Reg>, i: nat, parts: seq<string>, n: nat, params: seq<RouteParam>)
    requires i < |regs| && n <= |regs[i].segs| <= |parts| && LastEntry(regs, KeyOf(regs[i])).Some?
    requires forall m :: n <= m < |regs[i].segs| ==> Follows(regs, regs[i], parts, m)
    requires n == |regs[i].segs| || !regs[i].segs[|regs[i].segs| - 1].Wildcard? ==> |regs[i].segs| == |parts|
    ensures Walk(regs, KeyAt(regs[i].verb, regs[i].segs, n), parts[n..], params).Hit?
    decreases |regs[i].segs| - n
  {
    var r := regs[i];
    if n < |r.segs| {
      FollowedStep(regs, i, parts, n, params);
      if !r.segs[n].Wildcard? {
        var ps := params + Captured(regs, KeyAt(r.verb, r.segs, n), EdgeOf(r.segs[n]), parts[n]);
        FollowedToTheEnd(regs, i, parts, n + 1, ps);
      }
    }
  }

  lemma {:induction false} HitIsUnshadowed(regs: seq<Reg>, verb: string, path: string) returns (i: nat)
    requires GreedyFind(regs, verb, path).Hit?
    ensures Finds(regs, i, verb, SplitPath(path)) && Unshadowed(regs, regs[i], SplitPath(path))
  {
    HitsAreSound(regs, verb, path);
    i :| 0 <= i < |regs| && Explains(regs, regs[i], verb, SplitPath(path), GreedyFind(regs, verb, path));
  }

  lemma {:induction false} UnshadowedHits(regs: seq<Reg>, i: nat, verb: string, path: string)
    requires Finds(regs, i, verb, SplitPath(path)) && Unshadowed(regs, regs[i], SplitPath(path)) && WildcardsLast(regs[i].segs)
    ensures GreedyFind(regs, verb, path).Hit?
  {
    var parts := SplitPath(path);
    UnshadowedFollows(regs, i, verb, parts);
    ThroughAt(regs, i, 0);
    EntryLast(regs, KeyOf(regs[i]), i);
    FollowedToTheEnd(regs, i, parts, 0, []);
    assert parts[0..] == parts;
  }

  lemma {:induction false} UnshadowedFollows(regs: seq<Reg>, i: nat, verb: string, parts: seq<string>)
    requires Finds(regs, i, verb, parts) && Unshadowed(regs, regs[i], parts) && WildcardsLast(regs[i].segs)
    ensures forall m :: 0 <= m < |regs[i].segs| ==> Follows(regs, regs[i], parts, m)
  {
    var r := regs[i];
    forall m | 0 <= m < |r.segs| ensures Follows(regs, r, parts, m) {
      assert Preferred(regs, KeyAt(r.verb, r.segs, m), EdgeOf(r.segs[m]), parts[m]);
      assert PartFits(r.segs[m], parts[m]);
      assert r.segs[m].Wildcard? ==> m == |r.segs| - 1;
    }
  }

  /** A lookup hits exactly when some registered pattern matches the path and, at every part, no
      edge tried earlier is present. */
  lemma {:induction false} HitsExactlyUnshadowed(regs: seq<Reg>, verb: string, path: string)
    requires AllLast(regs)
    ensures GreedyFind(regs, verb, path).Hit? <==>
            exists i: nat :: Finds(regs, i, verb, SplitPath(path)) && Unshadowed(regs, regs[i], SplitPath(path))
  {
    if GreedyFind(regs, verb, path).Hit? {
      var i := HitIsUnshadowed(regs, verb, path);
    }
    if i: nat :| Finds(regs, i, verb, SplitPath(path)) && Unshadowed(regs, regs[i], SplitPath(path)) {
      UnshadowedHits(regs, i, verb, path);
    }
  }

  predicate SameKind(a: Segment, b: Segment) {
    a.Static? == b.Static? && a.Param? == b.Param?
  }

  // No place has children of two kinds.
  predicate KindsAgree(regs: seq<Reg>) {
    forall i, j, n ::
      0 <= i < |regs| && 0 <= j < |regs| && 0 <= n < |regs[i].segs| && n < |regs[j].segs|
      && KeyAt(regs[i].verb, regs[i].segs, n) == KeyAt(regs[j].verb, regs[j].segs, n)
      ==> SameKind(regs[i].segs[n], regs[j].segs[n])
  }

  lemma {:induction false} ChildBy(regs: seq<Reg>, k: Key, e: Edge) returns (j: nat)
    requires Present(regs, Below(k, e))
    ensures j < |regs| && Depth(k) < |regs[j].segs|
    ensures KeyAt(regs[j].verb, regs[j].segs, Depth(k)) == k && EdgeOf(regs[j].segs[Depth(k)]) == e
  {
    j := PresentBy(regs, Below(k, e));
    assert Depth(Below(k, e)) == Depth(k) + 1;
  }

  lemma {:induction false} OtherKindAbsent(regs: seq<Reg>, i: nat, n: nat, e: Edge)
    requires KindsAgree(regs) && i < |regs| && n < |regs[i].segs|
    requires regs[i].segs[n].Static? != e.Exactly? || regs[i].segs[n].Param? != e.AnyPart?
    ensures !Present(regs, Below(KeyAt(regs[i].verb, regs[i].segs, n), e))
  {
    var k := KeyAt(regs[i].verb, regs[i].segs, n);
    KeyDepth(regs[i].verb, regs[i].segs, n);
    if Present(regs, Below(k, e)) {
      var j := ChildBy(regs, k, e);
    }
  }

  lemma {:induction false} AgreeingIsUnshadowed(regs: seq<Reg>, i: nat, parts: seq<string>)
    requires KindsAgree(regs) && i < |regs| && |regs[i].segs| <= |parts|
    ensures Unshadowed(regs, regs[i], parts)
  {
    var r := regs[i];
    forall n | 0 <= n < |r.segs| ensures Preferred(regs, KeyAt(r.verb, r.segs, n), EdgeOf(r.segs[n]), parts[n]) {
      if !r.segs[n].Static? {
        OtherKindAbsent(regs, i, n, Exactly(parts[n]));
      }
      if r.segs[n].Wildcard? {
        OtherKindAbsent(regs, i, n, AnyPart);
      }
    }
  }

  /** If no place mixes child kinds, a lookup hits exactly when some registered pattern matches. */
  lemma {:induction false} UnmixedFindsEveryMatch(regs: seq<Reg>, verb: string, path: string)
    requires AllLast(regs) && KindsAgree(regs)
    ensures GreedyFind(regs, verb, path).Hit? <==> exists i: nat :: Finds(regs, i, verb, SplitPath(path))
  {
    HitsExactlyUnshadowed(regs, verb, path);
    if i: nat :| Finds(regs, i, verb, SplitPath(path)) {
      AgreeingIsUnshadowed(regs, i, SplitPath(path));
    }
  }

  // The places along a pattern of two segments, and nothing else, lie on it.
  lemma {:induction false} TwoSegments(r: Reg, k: Key, s0: Segment, s1: Segment)
    requires r.segs == [s0, s1]
    ensures KeyOf(r) == Below(Below(Root(r.verb), EdgeOf(s0)), EdgeOf(s1))
    ensures Through(r, k) <==> k == Root(r.verb) || k == Below(Root(r.verb), EdgeOf(s0)) || k == KeyOf(r)
  {
    assert KeyAt(r.verb, r.segs, 1) == Below(KeyAt(r.verb, r.segs, 0), EdgeOf(s0));
    assert KeyAt(r.verb, r.segs, 2) == Below(KeyAt(r.verb, r.segs, 1), EdgeOf(s1));
    assert KeyAt(r.verb, r.segs, 0) == Root(r.verb);
    assert Depth(Root(r.verb)) == 0 && Depth(KeyAt(r.verb, r.segs, 1)) == 1 && Depth(KeyOf(r)) == 2;
  }

  lemma {:induction false} OneReg(r: Reg, k: Key)
    ensures Present([r], k) <==> Through(r, k)
    ensures LastEntry([r], k) == if KeyOf(r) == k then r.entry else None
  {
    assert [r][..0] == [];
    assert FirstName([], k) == None && LastEntry([], k) == None;
  }

  // A part that stands for itself: it does not start with a colon or a star, or is just that one character.
  predicate Literal(part: string) {
    part != "" && '/' !in part && (|part| == 1 || (part[0] != ':' && part[0] != '*'))
  }

  function TwoParts(p: string, q: string): string {
    "/" + p + "/" + q
  }

  lemma {:induction false} TwoPartsSplit(p: string, q: string)
    requires p != "" && q != "" && '/' !in p && '/' !in q
    ensures SplitPath(TwoParts(p, q)) == [p, q]
  {
    var core := p + "/" + q;
    assert core[0] in p && core[|core| - 1] == q[|q| - 1] && q[|q| - 1] in q;
    assert Groups.Slashes(1) == "/" && Groups.Slashes(0) == "";
    assert TwoParts(p, q) == Groups.Slashes(1) + core + Groups.Slashes(0);
    Groups.TrimCore(1, core, 0);
    Groups.SplitJoined(p, q);
    SplitWhole(p, '/');
    SplitWhole(q, '/');
  }

  lemma {:induction false} TwoPartsRegistered(verb: string, p: string, q: string, handler: nat)
    requires p != "" && '/' !in p && Literal(q) && !SegmentOf(p).Wildcard?
    ensures Registered(verb, TwoParts(p, q), handler) ==
            Reg(verb, [SegmentOf(p), Static(q)], Some(RouteEntry(handler, verb, TwoParts(p, q))))
  {
    TwoPartsSplit(p, q);
    var segs := Segments([p, q]);
    assert segs == [SegmentOf(p), Static(q)];
    assert FirstInnerFrom(segs, 2) == None && FirstInnerFrom(segs, 1) == None && FirstInnerFrom(segs, 0) == None;
  }

  lemma {:induction false} LiteralShadows(verb: string, a: string, b: string, c: string, x: string, e1: RouteEntry, e2: RouteEntry)
    requires b != c
    ensures var older := Reg(verb, [Param(x), Static(c)], Some(e1));
            var newer := Reg(verb, [Static(a), Static(b)], Some(e2));
            && Walk([older], Root(verb), [a, c], []).Hit?
            && Walk([older, newer], Root(verb), [a, c], []).Miss?
            && PatternMatches(older.segs, [a, c])
  {
    var older := Reg(verb, [Param(x), Static(c)], Some(e1));
    var newer := Reg(verb, [Static(a), Static(b)], Some(e2));
    var root, lit, any := Root(verb), Below(Root(verb), Exactly(a)), Below(Root(verb), AnyPart);
    var ps := [] + Captured([older], root, AnyPart, a);
    assert [a, c][1..] == [c] && [c][1..] == [];
    forall k: Key ensures Present([older], k) <==> k == root || k == any || k == Below(any, Exactly(c)) {
      TwoSegments(older, k, Param(x), Static(c));
      OneReg(older, k);
    }
    WalkStep([older], root, AnyPart, [a, c], []);
    WalkStep([older], any, Exactly(c), [c], ps);
    TwoSegments(older, any, Param(x), Static(c));
    OneReg(older, Below(any, Exactly(c)));
    forall k: Key ensures Present([older, newer], k) <==> Present([older], k) || k == lit || k == Below(lit, Exactly(b)) {
      TwoSegments(newer, k, Static(a), Static(b));
      AppendReg([older], newer, k);
      assert [older] + [newer] == [older, newer];
    }
    WalkStep([older, newer], root, Exactly(a), [a, c], []);
  }

  /** Adding the route `/a/b` hides an earlier `/:x/c` on the path `/a/c`: the walk takes the literal
      and does not come back. */
  lemma {:induction false} AddingShadows(verb: string, a: string, b: string, c: string, x: string, h1: nat, h2: nat)
    requires Literal(a) && Literal(b) && Literal(c) && b != c && x != "" && '/' !in x
    ensures var older := Registered(verb, TwoParts(":" + x, c), h1);
            var newer := Registered(verb, TwoParts(a, b), h2);
            && GreedyFind([older], verb, TwoParts(a, c)).Hit?
            && GreedyFind([older, newer], verb, TwoParts(a, c)).Miss?
            && PatternMatches(older.segs, SplitPath(TwoParts(a, c)))
  {
    assert SegmentOf(":" + x) == Param(x);
    TwoPartsRegistered(verb, ":" + x, c, h1);
    TwoPartsRegistered(verb, a, b, h2);
    TwoPartsSplit(a, c);
    var older, newer := Registered(verb, TwoParts(":" + x, c), h1), Registered(verb, TwoParts(a, b), h2);
    LiteralShadows(verb, a, b, c, x, older.entry.value, newer.entry.value);
    TwoSegments(older, Root(verb), Param(x), Static(c));
    OneReg(older, Root(verb));
    AppendReg([older], newer, Root(verb));
    assert [older] + [newer] == [older, newer];
  }
}
