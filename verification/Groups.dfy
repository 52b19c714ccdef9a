/** Route groups: how prefixes and middleware compose on the way to the router (group.go, app.go). */
module Groups {
  import opened Strings
  import opened Routes

  // ---------------------------------------------------------------- middleware

  // The first middleware is the outermost.
  function Chained<H>(h: H, mw: seq<H -> H>): H {
    if mw == [] then h else mw[0](Chained(h, mw[1..]))
  }

  method Chain<H>(h: H, mw: seq<H -> H>) returns (r: H)
    ensures r == Chained(h, mw)
  {
    r := h;
    assert mw[|mw|..] == [];
    for i := |mw| downto 0
      invariant r == Chained(h, mw[i..])
    {
      assert mw[i..][1..] == mw[i + 1..];
      r := mw[i](r);
    }
    assert mw[0..] == mw;
  }

  lemma {:induction false} ChainedAppend<H>(h: H, a: seq<H -> H>, b: seq<H -> H>)
    ensures Chained(h, a + b) == Chained(Chained(h, b), a)
  {
    if a == [] {
      assert a + b == b;
    } else {
      ChainedAppend(h, a[1..], b);
      assert (a + b)[1..] == a[1..] + b;
    }
  }

  // ---------------------------------------------------------------- groups

  function NormalizePath(path: string): string {
    if path == "" || path == "/" then "/"
    else
      var p := if path[0] != '/' then "/" + path else path;
      if |p| > 1 && p[|p| - 1] == '/' then p[..|p| - 1] else p
  }

  datatype Group<!H> = Group(prefix: string, mw: seq<H -> H>)

  function AppGroup<H>(prefix: string, mw: seq<H -> H>): Group<H> {
    Group(NormalizePath(prefix), mw)
  }

  function SubGroup<H>(g: Group<H>, prefix: string, mw: seq<H -> H>): Group<H> {
    Group(NormalizePath(g.prefix + NormalizePath(prefix)), g.mw + mw)
  }

  // What a group's route call hands to the router; the application normalises the path once more.
  function FullPath<H>(g: Group<H>, path: string): string {
    NormalizePath(NormalizePath(g.prefix + NormalizePath(path)))
  }

  function FullHandler<H>(global: seq<H -> H>, g: Group<H>, mw: seq<H -> H>, h: H): H {
    Chained(h, global + (g.mw + mw))
  }

  datatype Level<!H> = Level(prefix: string, mw: seq<H -> H>)

  // Groups inside groups, the outermost first.
  function Nested<H>(levels: seq<Level<H>>): Group<H>
    requires levels != []
  {
    var last := levels[|levels| - 1];
    if |levels| == 1 then AppGroup(last.prefix, last.mw)
    else SubGroup(Nested(levels[..|levels| - 1]), last.prefix, last.mw)
  }

  function AllWrapped<H>(h: H, levels: seq<Level<H>>): H {
    if levels == [] then h else Chained(AllWrapped(h, levels[1..]), levels[0].mw)
  }

  lemma {:induction false} AllWrappedLast<H>(h: H, levels: seq<Level<H>>)
    requires levels != []
    ensures AllWrapped(h, levels) == AllWrapped(Chained(h, levels[|levels| - 1].mw), levels[..|levels| - 1])
  {
    var init := levels[..|levels| - 1];
    if |levels| > 1 {
      AllWrappedLast(h, levels[1..]);
      assert levels[1..][..|levels| - 2] == init[1..];
    } else {
      assert AllWrapped(h, levels[1..]) == h;
    }
  }

  lemma {:induction false} NestedWraps<H>(h: H, levels: seq<Level<H>>)
    requires levels != []
    ensures Chained(h, Nested(levels).mw) == AllWrapped(h, levels)
  {
    var init, last := levels[..|levels| - 1], levels[|levels| - 1];
    AllWrappedLast(h, levels);
    if |levels| > 1 {
      ChainedAppend(h, Nested(init).mw, last.mw);
      NestedWraps(Chained(h, last.mw), init);
    }
  }

  /** A handler registered in nested groups runs inside the application's middleware, then each
      group's from the outermost in, then its own. */
  lemma {:induction false} MiddlewareOrder<H>(global: seq<H -> H>, levels: seq<Level<H>>, mw: seq<H -> H>, h: H)
    requires levels != []
    ensures FullHandler(global, Nested(levels), mw, h) == Chained(AllWrapped(Chained(h, mw), levels), global)
  {
    ChainedAppend(h, global, Nested(levels).mw + mw);
    ChainedAppend(h, Nested(levels).mw, mw);
    NestedWraps(Chained(h, mw), levels);
  }

  // ---------------------------------------------------------------- middleware that leave a mark

  // Each puts its mark before what the handlers inside it leave.
  function Marking<T>(marks: seq<T>): seq<seq<T> -> seq<T>> {
    seq(|marks|, i requires 0 <= i < |marks| => Marker(marks[i]))
  }

  function Marker<T>(mark: T): seq<T> -> seq<T> {
    trace => [mark] + trace
  }

  /** Chained around a handler, middleware run one after the other, the first one first. */
  lemma {:induction false} ChainTrace<T>(marks: seq<T>, b: seq<T>)
    ensures Chained(b, Marking(marks)) == marks + b
  {
    if marks == [] {
      assert marks + b == b;
    } else {
      ChainTrace(marks[1..], b);
      assert Marking(marks)[1..] == Marking(marks[1..]);
      assert [marks[0]] + (marks[1..] + b) == marks + b;
    }
  }

  lemma InOrder<T>(a: seq<T>, b: seq<T>, c: seq<T>)
    ensures a + (b + c) == a + b + c
  {
  }

  // Groups inside groups, each with its prefix and marks.
  function MarkedLevels<T>(levels: seq<(string, seq<T>)>): seq<Level<seq<T>>> {
    seq(|levels|, i requires 0 <= i < |levels| => Level(levels[i].0, Marking(levels[i].1)))
  }

  function AllMarks<T>(levels: seq<(string, seq<T>)>): seq<T> {
    if levels == [] then [] else levels[0].1 + AllMarks(levels[1..])
  }

  lemma {:induction false} WrappedTrace<T>(levels: seq<(string, seq<T>)>, b: seq<T>)
    ensures AllWrapped(b, MarkedLevels(levels)) == AllMarks(levels) + b
  {
    if levels == [] {
      assert AllMarks(levels) + b == b;
    } else {
      WrappedTrace(levels[1..], b);
      MarkedTail(levels);
      ChainTrace(levels[0].1, AllMarks(levels[1..]) + b);
      InOrder(levels[0].1, AllMarks(levels[1..]), b);
    }
  }

  lemma MarkedTail<T>(levels: seq<(string, seq<T>)>)
    requires levels != []
    ensures MarkedLevels(levels) != [] && MarkedLevels(levels)[1..] == MarkedLevels(levels[1..])
    ensures MarkedLevels(levels)[0].mw == Marking(levels[0].1)
  {
  }

  /** A request to a route in nested groups meets the application's middleware, then each group's from
      the outermost in, then the route's own, then the handler: all of them, each once, in this order. */
  lemma NestedTrace<T>(global: seq<T>, levels: seq<(string, seq<T>)>, own: seq<T>, b: seq<T>)
    requires levels != []
    ensures FullHandler(Marking(global), Nested(MarkedLevels(levels)), Marking(own), b) == global + AllMarks(levels) + own + b
  {
    MiddlewareOrder(Marking(global), MarkedLevels(levels), Marking(own), b);
    ChainTrace(own, b);
    WrappedTrace(levels, own + b);
    ChainTrace(global, AllMarks(levels) + (own + b));
    InOrder(AllMarks(levels), own, b);
    InOrder(global, AllMarks(levels), own + b);
    InOrder(global + AllMarks(levels), own, b);
  }

  // ---------------------------------------------------------------- slashes

  predicate AllSlashes(s: string) {
    forall i :: 0 <= i < |s| ==> s[i] == '/'
  }

  function Slashes(n: nat): string {
    if n == 0 then "" else Slashes(n - 1) + "/"
  }

  lemma {:induction false} TrimLeftSplits(s: string) returns (n: nat)
    ensures s == Slashes(n) + TrimSlashesLeft(s)
    ensures TrimSlashesLeft(s) != [] ==> TrimSlashesLeft(s)[0] != '/'
    ensures TrimSlashesLeft(s) == [] <==> AllSlashes(s)
  {
    if s != [] && s[0] == '/' {
      var m := TrimLeftSplits(s[1..]);
      n := m + 1;
      SlashesFront(m);
      assert s == "/" + s[1..];
      assert AllSlashes(s) <==> AllSlashes(s[1..]) by {
        assert forall i :: 0 <= i < |s| - 1 ==> s[1..][i] == s[i + 1];
        assert forall i :: 1 <= i < |s| ==> s[i] == s[1..][i - 1];
      }
    } else {
      n := 0;
    }
  }

  lemma {:induction false} SlashesFront(n: nat)
    ensures Slashes(n + 1) == "/" + Slashes(n) && |Slashes(n)| == n && AllSlashes(Slashes(n))
  {
    if n > 0 {
      SlashesFront(n - 1);
    }
  }

  lemma {:induction false} TrimRightSplits(s: string) returns (n: nat)
    ensures s == TrimSlashesRight(s) + Slashes(n)
    ensures TrimSlashesRight(s) != [] ==> TrimSlashesRight(s)[|TrimSlashesRight(s)| - 1] != '/'
  {
    if s != [] && s[|s| - 1] == '/' {
      var m := TrimRightSplits(s[..|s| - 1]);
      n := m + 1;
    } else {
      n := 0;
    }
  }

  // Slashes around a core that is bare at both ends are what trimming removes.
  lemma {:induction false} TrimCore(n: nat, core: string, m: nat)
    requires core != [] && core[0] != '/' && core[|core| - 1] != '/'
    ensures TrimSlashes(Slashes(n) + core + Slashes(m)) == core
  {
    var s := Slashes(n) + core + Slashes(m);
    if n > 0 {
      SlashesFront(n - 1);
      assert s[1..] == Slashes(n - 1) + core + Slashes(m);
      TrimCore(n - 1, core, m);
    } else {
      assert s == core + Slashes(m) && s[0] == core[0];
      TrimCoreRight(core, m);
    }
  }

  lemma {:induction false} TrimCoreRight(core: string, m: nat)
    requires core != [] && core[|core| - 1] != '/'
    ensures TrimSlashesRight(core + Slashes(m)) == core
  {
    if m > 0 {
      assert (core + Slashes(m))[..|core + Slashes(m)| - 1] == core + Slashes(m - 1);
      TrimCoreRight(core, m - 1);
    } else {
      assert core + Slashes(m) == core;
    }
  }

  // Every path is slashes, or a core that trimming leaves, between slashes.
  lemma {:induction false} CoreOf(s: string) returns (n: nat, m: nat)
    ensures TrimSlashes(s) == [] <==> AllSlashes(s)
    ensures AllSlashes(s) ==> s == Slashes(n) && m == 0
    ensures TrimSlashes(s) != [] ==> TrimSlashes(s)[0] != '/' && TrimSlashes(s)[|TrimSlashes(s)| - 1] != '/'
    ensures !AllSlashes(s) ==> s == Slashes(n) + TrimSlashes(s) + Slashes(m)
  {
    n := TrimLeftSplits(s);
    var left := TrimSlashesLeft(s);
    if left == [] {
      m := 0;
      assert s == Slashes(n);
      assert TrimSlashesRight([]) == [];
    } else {
      m := TrimRightSplits(left);
      var core := TrimSlashesRight(left);
      SlashesFront(m);
      assert core == [] ==> left == Slashes(m);
      assert m > 0 ==> Slashes(m)[0] == '/';
      assert left[0] == core[0];
      assert s == Slashes(n) + core + Slashes(m);
    }
  }

  // ---------------------------------------------------------------- joined paths

  lemma {:induction false} SplitHead(s: string)
    requires s != [] && s[0] != '/'
    ensures Split(s[1..], '/') != []
    ensures Split(s, '/') == [[s[0]] + Split(s[1..], '/')[0]] + Split(s[1..], '/')[1..]
  {
    JoinSplit(s[1..]);
  }

  lemma {:induction false} SplitSlash(s: string)
    requires s != [] && s[0] == '/'
    ensures Split(s, '/') == [""] + Split(s[1..], '/')
  {
  }

  lemma {:induction false} HeadStays(c: char, front: seq<string>, back: seq<string>)
    requires front != []
    ensures [[c] + (front + back)[0]] + (front + back)[1..] == [[c] + front[0]] + front[1..] + back
  {
    assert (front + back)[1..] == front[1..] + back;
  }

  lemma {:induction false} SplitJoined(x: string, y: string)
    ensures Split(x + "/" + y, '/') == Split(x, '/') + Split(y, '/')
  {
    var all := x + "/" + y;
    if x == [] {
      assert all[1..] == y;
      SplitSlash(all);
    } else {
      SplitJoined(x[1..], y);
      assert all[0] == x[0] && all[1..] == x[1..] + "/" + y;
      if x[0] == '/' {
        SplitSlash(all);
        SplitSlash(x);
      } else {
        SplitHead(all);
        SplitHead(x);
        HeadStays(x[0], Split(x[1..], '/'), Split(y, '/'));
      }
    }
  }

  lemma {:induction false} SplitSlashes(n: nat, y: string)
    ensures |Split(Slashes(n) + y, '/')| == n + |Split(y, '/')|
  {
    if n == 0 {
      assert Slashes(n) + y == y;
    } else {
      SlashesFront(n - 1);
      SplitSlashes(n - 1, y);
      assert Slashes(n) + y == "/" + (Slashes(n - 1) + y);
      assert ("/" + (Slashes(n - 1) + y))[1..] == Slashes(n - 1) + y;
    }
  }

  // Two cores with n slashes between them are split apart cleanly exactly when n is one; more slashes
  // leave empty segments.
  lemma {:induction false} SplitAcross(a: string, n: nat, b: string)
    requires n >= 1
    ensures Split(a + Slashes(n) + b, '/') == Split(a, '/') + Split(b, '/') <==> n == 1
    ensures |Split(a + Slashes(n) + b, '/')| == |Split(a, '/')| + |Split(b, '/')| + n - 1
  {
    SlashesFront(n - 1);
    assert a + Slashes(n) + b == a + "/" + (Slashes(n - 1) + b);
    SplitJoined(a, Slashes(n - 1) + b);
    SplitSlashes(n - 1, b);
    if n == 1 {
      assert Slashes(0) + b == b;
    }
  }

  // The path with a slash in front, as slashes, core and slashes.
  lemma {:induction false} Fronted(path: string, n: nat, core: string, m: nat) returns (k: nat)
    requires path == Slashes(n) + core + Slashes(m) && core != [] && core[0] != '/'
    ensures k >= 1 && (if path[0] != '/' then "/" + path else path) == Slashes(k) + core + Slashes(m)
  {
    if n == 0 {
      k := 1;
      assert path == core + Slashes(m) && path[0] == core[0];
      assert Slashes(1) == "/";
      assert "/" + path == "/" + core + Slashes(m);
    } else {
      k := n;
      SlashesFront(n - 1);
      assert path[0] == '/';
    }
  }

  lemma {:induction false} DropsOneSlash(p: string, k: nat, core: string, m: nat)
    requires p == Slashes(k) + core + Slashes(m) && k >= 1 && core != [] && core[0] != '/' && core[|core| - 1] != '/'
    ensures TrimSlashes(if |p| > 1 && p[|p| - 1] == '/' then p[..|p| - 1] else p) == core
  {
    EdgeSlashes(p, k, core, m);
    SlashesFront(k);
    if m > 0 {
      assert p[..|p| - 1] == Slashes(k) + core + Slashes(m - 1);
      TrimCore(k, core, m - 1);
    } else {
      TrimCore(k, core, 0);
    }
  }

  lemma {:induction false} NormalSlashes(path: string)
    requires AllSlashes(path)
    ensures AllSlashes(NormalizePath(path)) && NormalizePath(path) != []
  {
  }

  lemma {:induction false} NormalOther(path: string, n: nat, core: string, m: nat)
    requires path == Slashes(n) + core + Slashes(m) && core != [] && core[0] != '/' && core[|core| - 1] != '/'
    ensures TrimSlashes(NormalizePath(path)) == core
    ensures NormalizePath(path) != [] && NormalizePath(path)[0] == '/'
  {
    var k := Fronted(path, n, core, m);
    var p := if path[0] != '/' then "/" + path else path;
    assert core[0] in path;
    assert path != "/";
    DropsOneSlash(p, k, core, m);
    assert NormalizePath(path) == if |p| > 1 && p[|p| - 1] == '/' then p[..|p| - 1] else p;
  }

  lemma {:induction false} NormalKeepsCore(path: string)
    ensures TrimSlashes(NormalizePath(path)) == TrimSlashes(path)
    ensures NormalizePath(path) != [] && NormalizePath(path)[0] == '/'
  {
    var n, m := CoreOf(path);
    if AllSlashes(path) {
      NormalSlashes(path);
      var n', m' := CoreOf(NormalizePath(path));
    } else {
      NormalOther(path, n, TrimSlashes(path), m);
    }
  }

  // Only one slash where the prefix ends and the path begins.
  predicate JoinsCleanly(prefix: string, path: string) {
    || AllSlashes(prefix) || AllSlashes(path)
    || (prefix[|prefix| - 1] != '/' && (|path| < 2 || path[1] != '/'))
  }

  lemma {:induction false} JoinedCores(n1: nat, a: string, m1: nat, n2: nat, b: string, m2: nat)
    ensures (Slashes(n1) + a + Slashes(m1)) + (Slashes(n2) + b + Slashes(m2)) ==
            Slashes(n1) + (a + Slashes(m1 + n2) + b) + Slashes(m2)
  {
    SlashesAdd(m1, n2);
  }

  // Cores with slashes around them, put together.
  lemma {:induction false} PaddedJoin(n1: nat, a: string, m1: nat, n2: nat, b: string, m2: nat)
    requires a != [] && a[0] != '/' && a[|a| - 1] != '/' && b != [] && b[0] != '/' && b[|b| - 1] != '/'
    ensures TrimSlashes((Slashes(n1) + a + Slashes(m1)) + (Slashes(n2) + b + Slashes(m2))) == a + Slashes(m1 + n2) + b
  {
    var core := a + Slashes(m1 + n2) + b;
    JoinedCores(n1, a, m1, n2, b, m2);
    assert core[0] == a[0] && core[|core| - 1] == b[|b| - 1];
    TrimCore(n1, core, m2);
  }

  lemma {:induction false} CoresJoin(prefix: string, path: string)
    requires path != [] && path[0] == '/' && !AllSlashes(prefix) && !AllSlashes(path)
    ensures SplitPath(prefix + path) == SplitPath(prefix) + SplitPath(path) <==>
            prefix[|prefix| - 1] != '/' && (|path| < 2 || path[1] != '/')
    ensures |SplitPath(prefix + path)| >= |SplitPath(prefix)| + |SplitPath(path)|
    ensures |SplitPath(prefix + path)| == |SplitPath(prefix)| + |SplitPath(path)| ==> SplitPath(prefix + path) == SplitPath(prefix) + SplitPath(path)
  {
    var n1, m1 := CoreOf(prefix);
    var n2, m2 := CoreOf(path);
    var a, b := TrimSlashes(prefix), TrimSlashes(path);
    PaddedJoin(n1, a, m1, n2, b, m2);
    EdgeSlashes(prefix, n1, a, m1);
    LeadSlashes(path, n2, b, m2);
    SplitAcross(a, m1 + n2, b);
  }

  lemma {:induction false} SlashesAdd(m: nat, n: nat)
    ensures Slashes(m) + Slashes(n) == Slashes(m + n)
  {
    if n > 0 {
      SlashesAdd(m, n - 1);
    } else {
      assert Slashes(m) + Slashes(0) == Slashes(m);
    }
  }

  lemma EdgeSlashes(s: string, n: nat, core: string, m: nat)
    requires s == Slashes(n) + core + Slashes(m) && core != [] && core[|core| - 1] != '/'
    ensures s[|s| - 1] == '/' <==> m > 0
  {
    SlashesFront(m);
    if m == 0 {
      assert s[|s| - 1] == core[|core| - 1];
    } else {
      assert s[|s| - 1] == Slashes(m)[m - 1];
    }
  }

  lemma LeadSlashes(s: string, n: nat, core: string, m: nat)
    requires s == Slashes(n) + core + Slashes(m) && core != [] && core[0] != '/'
    ensures s[0] == '/' ==> n >= 1 && (n == 1 <==> (|s| < 2 || s[1] != '/'))
  {
    SlashesFront(n);
    SlashesFront(m);
    assert n == 0 ==> s[0] == core[0];
    if n == 1 {
      assert s[1] == core[0];
    } else if n > 1 {
      assert s[1] == Slashes(n)[1];
    }
  }

  lemma {:induction false} BlankPrefixJoins(prefix: string, path: string)
    requires AllSlashes(prefix)
    ensures TrimSlashes(prefix) == "" && TrimSlashes(prefix + path) == TrimSlashes(path)
  {
    var n1, m1 := CoreOf(prefix);
    var n2, m2 := CoreOf(path);
    if AllSlashes(path) {
      var n3, m3 := CoreOf(prefix + path);
    } else {
      SlashesAdd(n1, n2);
      assert prefix + path == Slashes(n1 + n2) + TrimSlashes(path) + Slashes(m2);
      TrimCore(n1 + n2, TrimSlashes(path), m2);
    }
  }

  lemma {:induction false} BlankPathJoins(prefix: string, path: string)
    requires AllSlashes(path) && !AllSlashes(prefix)
    ensures TrimSlashes(path) == "" && TrimSlashes(prefix + path) == TrimSlashes(prefix)
  {
    var n1, m1 := CoreOf(prefix);
    var n2, m2 := CoreOf(path);
    SlashesAdd(m1, n2);
    assert prefix + path == Slashes(n1) + TrimSlashes(prefix) + Slashes(m1 + n2);
    TrimCore(n1, TrimSlashes(prefix), m1 + n2);
  }

  lemma {:induction false} PathsJoin(prefix: string, path: string)
    requires path != [] && path[0] == '/'
    ensures SplitPath(prefix + path) == SplitPath(prefix) + SplitPath(path) <==> JoinsCleanly(prefix, path)
    ensures |SplitPath(prefix + path)| >= |SplitPath(prefix)| + |SplitPath(path)|
    ensures |SplitPath(prefix + path)| == |SplitPath(prefix)| + |SplitPath(path)| ==> JoinsCleanly(prefix, path)
  {
    if AllSlashes(prefix) {
      BlankPrefixJoins(prefix, path);
      assert [] + SplitPath(path) == SplitPath(path);
    } else if AllSlashes(path) {
      BlankPathJoins(prefix, path);
    } else {
      CoresJoin(prefix, path);
    }
  }

  /** A route of a group is registered under the prefix's segments followed by the path's exactly
      when a single slash meets between them, or one of the two is nothing but slashes. */
  lemma {:induction false} GroupPathSegments<H>(g: Group<H>, path: string)
    ensures SplitPath(FullPath(g, path)) == SplitPath(g.prefix) + SplitPath(path) <==>
            JoinsCleanly(g.prefix, NormalizePath(path))
  {
    var p := NormalizePath(path);
    NormalKeepsCore(path);
    NormalKeepsCore(g.prefix + p);
    NormalKeepsCore(NormalizePath(g.prefix + p));
    PathsJoin(g.prefix, p);
  }

  // ---------------------------------------------------------------- groups inside groups

  // The segments of every level's prefix, one level after the other.
  function AllParts<H>(levels: seq<Level<H>>): seq<string> {
    if levels == [] then [] else AllParts(levels[..|levels| - 1]) + SplitPath(levels[|levels| - 1].prefix)
  }

  // Every level joins cleanly to the group it is made in.
  predicate LevelsClean<H>(levels: seq<Level<H>>) {
    |levels| > 1 ==>
      && LevelsClean(levels[..|levels| - 1])
      && JoinsCleanly(Nested(levels[..|levels| - 1]).prefix, NormalizePath(levels[|levels| - 1].prefix))
  }

  // Joining never loses a segment, and adds none exactly when it is clean.
  lemma {:induction false} JoinedParts(prefix: string, path: string)
    ensures var joined := SplitPath(NormalizePath(prefix + NormalizePath(path)));
            && |joined| >= |SplitPath(prefix)| + |SplitPath(path)|
            && (|joined| == |SplitPath(prefix)| + |SplitPath(path)| <==> JoinsCleanly(prefix, NormalizePath(path)))
            && (JoinsCleanly(prefix, NormalizePath(path)) ==> joined == SplitPath(prefix) + SplitPath(path))
  {
    NormalKeepsCore(path);
    NormalKeepsCore(prefix + NormalizePath(path));
    PathsJoin(prefix, NormalizePath(path));
  }

  lemma {:induction false} NestedParts<H>(levels: seq<Level<H>>)
    requires levels != []
    ensures var parts := SplitPath(Nested(levels).prefix);
            && |parts| >= |AllParts(levels)|
            && (|parts| == |AllParts(levels)| <==> LevelsClean(levels))
            && (LevelsClean(levels) ==> parts == AllParts(levels))
  {
    var init, last := levels[..|levels| - 1], levels[|levels| - 1];
    if |levels| == 1 {
      NormalKeepsCore(last.prefix);
      assert AllParts(init) == [];
    } else {
      NestedParts(init);
      JoinedParts(Nested(init).prefix, last.prefix);
    }
  }

  /** A route of nested groups is registered under the segments of every level's prefix followed by the
      path's exactly when every level, and the path, joins cleanly. */
  lemma {:induction false} NestedPathSegments<H>(levels: seq<Level<H>>, path: string)
    requires levels != []
    ensures SplitPath(FullPath(Nested(levels), path)) == AllParts(levels) + SplitPath(path) <==>
            LevelsClean(levels) && JoinsCleanly(Nested(levels).prefix, NormalizePath(path))
  {
    var g := Nested(levels);
    NormalKeepsCore(NormalizePath(g.prefix + NormalizePath(path)));
    JoinedParts(g.prefix, path);
    NestedParts(levels);
  }

  /** A prefix that ends in two slashes keeps one of them, and an empty segment appears: `/x` in the
      group `/api//` is registered under `api`, nothing and `x`. */
  lemma DoubledSlashSplits<H>(mw: seq<H -> H>)
    ensures var g := AppGroup("/api//", mw);
            SplitPath(FullPath(g, "/x")) != SplitPath(g.prefix) + SplitPath("/x")
  {
    var g := AppGroup("/api//", mw);
    assert g.prefix == "/api/" && NormalizePath("/x") == "/x";
    assert "/api/"[1] != '/' && "/x"[1] != '/';
    GroupPathSegments(g, "/x");
  }
}
