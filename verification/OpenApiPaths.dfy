/** The path templates of the document as texts (openapi/openapi.go). */
module OpenApiPaths {
  import opened Strings
  import opened OpenApi
  import opened Schemas
  import SchemaShapes
  import Routes

  lemma OnePart(p: string)
    requires '/' !in p
    ensures Template(p) == if p == "" then "/" else TemplatePart(p)
  {
    SplitWhole(p, '/');
    var parts := Split(p, '/');
    assert seq(|parts|, i requires 0 <= i < |parts| => TemplatePart(parts[i])) == [TemplatePart(p)];
  }

  function Filled(parts: seq<string>): seq<string> {
    seq(|parts|, i requires 0 <= i < |parts| => TemplatePart(parts[i]))
  }

  lemma Unfilled(q: string)
    ensures Split(q, '/') != []
    ensures Routes.Join(Filled(Split(q, '/'))) == if q == "" then "" else Template(q)
  {
    Routes.JoinSplit(q);
    var parts := Split(q, '/');
    assert Filled(parts) == seq(|parts|, i requires 0 <= i < |parts| => TemplatePart(parts[i]));
    if q == "" {
      assert Filled([""]) == [""];
    } else if Routes.Join(Filled(parts)) == "" {
      NothingLeft(parts);
    }
  }

  // Only the empty path has an empty template.
  lemma NothingLeft(parts: seq<string>)
    requires parts != [] && Routes.Join(Filled(parts)) == ""
    ensures Routes.Join(parts) == ""
  {
    if |parts| == 1 {
      assert Filled(parts) == [TemplatePart(parts[0])];
    }
  }

  lemma FilledHead(p: string, rest: seq<string>)
    requires rest != []
    ensures Routes.Join(Filled([p] + rest)) == TemplatePart(p) + "/" + Routes.Join(Filled(rest))
  {
    assert Filled([p] + rest) == [TemplatePart(p)] + Filled(rest);
    assert Filled([p] + rest)[1..] == Filled(rest);
  }

  /** Part by part a template is the path with `:x` and `*x` written `{x}`; no path is written `/`. */
  lemma TemplateTexts(p: string, q: string, x: string)
    requires '/' !in p && '/' !in x
    ensures Template("") == "/"
    ensures Template(":" + x) == "{" + x + "}" && Template("*" + x) == "{" + x + "}"
    ensures p != "" && p[0] != ':' && p[0] != '*' ==> Template(p) == p
    ensures Template(p + "/" + q) == (if p == "" then "" else Template(p)) + "/" + (if q == "" then "" else Template(q))
  {
    OnePart("");
    OnePart(":" + x);
    OnePart("*" + x);
    OnePart(p);
    assert (":" + x)[1..] == x && ("*" + x)[1..] == x;
    SplitFirst(p, '/', q);
    Unfilled(q);
    FilledHead(p, Split(q, '/'));
    Unfilled(p + "/" + q);
  }

  lemma BlankFree(s: string)
    requires ' ' !in s
    ensures ' ' !in ToUpper(s)
  {
    forall i | 0 <= i < |s| ensures ToUpper(s)[i] != ' ' {
      assert s[i] in s;
    }
  }

  lemma SamePrefix(a: string, b: string, p: string, q: string)
    requires a + " " + p == b + " " + q && ' ' !in a && ' ' !in b
    ensures a == b && p == q
  {
    SplitFirst(a, ' ', p);
    SplitFirst(b, ' ', q);
    assert [a] + Split(p, ' ') == [b] + Split(q, ' ');
    assert ([a] + Split(p, ' '))[0] == a && ([b] + Split(q, ' '))[0] == b;
    assert (a + " " + p)[|a| + 1..] == p && (b + " " + q)[|b| + 1..] == q;
  }

  /** Operations are told apart by method, whatever its case, and path. */
  lemma OperationKeys(verb: string, path: string, verb': string, path': string)
    requires ' ' !in verb && ' ' !in verb'
    ensures OptKey(verb, path) == OptKey(verb', path') <==> ToUpper(verb) == ToUpper(verb') && path == path'
  {
    BlankFree(verb);
    BlankFree(verb');
    if OptKey(verb, path) == OptKey(verb', path') {
      SamePrefix(ToUpper(verb), ToUpper(verb'), path, path');
    }
  }

  // ---------------------------------------------------------------- the entries of the document

  lemma {:induction false} BareFollows(types: Types, ord: Order, t: TypeId, target: TypeId, n: nat)
    requires Ranked(types, ord) && ord.inside(t) && SchemaShapes.PointsTo(types, t, target, n)
    ensures Bare(types, ord, t) == target
    decreases n
  {
    if n > 0 {
      assert Uses(types, t, types(t).shape.elem);
      BareFollows(types, ord, types(t).shape.elem, target, n - 1);
    }
  }

  function PlaceOf(r: Route): (string, string) {
    (Template(r.path), ToLower(r.verb))
  }

  // A later route has another template or another method.
  predicate LastOfKind(routes: seq<Route>, i: nat) {
    i < |routes| && forall j :: i < j < |routes| ==> PlaceOf(routes[j]) != PlaceOf(routes[i])
  }

  lemma DocumentedNext(types: Types, ord: Order, opts: map<string, Operation>, routes: seq<Route>, r: Route)
    requires Ranked(types, ord) && RoutesInside(ord, opts, routes + [r])
    ensures ModelsInside(ord, OperationAt(opts, r)) && RoutesInside(ord, opts, routes)
    ensures var op := OperationAt(opts, r);
            Documented(types, ord, opts, routes + [r]) ==
            Documented(types, ord, opts, routes)[PlaceOf(r) := DocEntry(ModelRef(types, ord, op.request), ModelRef(types, ord, op.response))]
  {
    var all := routes + [r];
    assert all[|routes|] == r && all[..|all| - 1] == routes;
    forall i | 0 <= i < |routes| ensures ModelsInside(ord, OperationAt(opts, routes[i])) {
      assert all[i] == routes[i];
    }
  }

  lemma {:induction false} LastDocumented(types: Types, ord: Order, opts: map<string, Operation>, routes: seq<Route>, i: nat)
    requires Ranked(types, ord) && RoutesInside(ord, opts, routes) && LastOfKind(routes, i)
    ensures ModelsInside(ord, OperationAt(opts, routes[i]))
    ensures var op := OperationAt(opts, routes[i]);
            PlaceOf(routes[i]) in Documented(types, ord, opts, routes) &&
            Documented(types, ord, opts, routes)[PlaceOf(routes[i])] == DocEntry(ModelRef(types, ord, op.request), ModelRef(types, ord, op.response))
  {
    var n := |routes| - 1;
    assert routes == routes[..n] + [routes[n]];
    DocumentedNext(types, ord, opts, routes[..n], routes[n]);
    if i < n {
      assert forall j :: 0 <= j < n ==> routes[..n][j] == routes[j];
      LastDocumented(types, ord, opts, routes[..n], i);
      assert PlaceOf(routes[n]) != PlaceOf(routes[i]);
    }
  }

  // The reference to a model that is `target` behind its pointers.
  predicate RefersToModel(types: Types, target: TypeId, ref: Option<string>) {
    ref == if types(target).name == "" then None else Some("#/components/schemas/" + types(target).name)
  }

  /** The entry of the last route of a template and method refers to the request model and the response model
      that were given for it, each by the name of its type behind any pointers, and to none where there is
      no model. */
  lemma DocumentHolds(types: Types, ord: Order, opts: map<string, Operation>, routes: seq<Route>, i: nat, m: TypeId, target: TypeId, n: nat)
    requires Ranked(types, ord) && RoutesInside(ord, opts, routes) && LastOfKind(routes, i)
    requires SchemaShapes.PointsTo(types, m, target, n)
    ensures var r, doc := routes[i], Documented(types, ord, opts, routes);
            var k, given := (Template(r.path), ToLower(r.verb)), ToUpper(r.verb) + " " + r.path;
            && k in doc
            && (given !in opts ==> doc[k] == DocEntry(None, None))
            && (given in opts && opts[given].request == Some(m) ==> RefersToModel(types, target, doc[k].request))
            && (given in opts && opts[given].response == Some(m) ==> RefersToModel(types, target, doc[k].response))
            && (given in opts && opts[given].request == None ==> doc[k].request == None)
            && (given in opts && opts[given].response == None ==> doc[k].response == None)
  {
    LastDocumented(types, ord, opts, routes, i);
    var op := OperationAt(opts, routes[i]);
    assert ModelsInside(ord, op);
    if op.request == Some(m) || op.response == Some(m) {
      BareFollows(types, ord, m, target, n);
    }
  }
}
