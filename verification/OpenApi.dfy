/** The document generator: its component map, the schemas it registers and the references its
    documents hold (openapi/openapi.go, openapi/schema.go). */
module OpenApi {
  import opened Strings
  import opened Schemas
  import opened JsonPointer
  import Routes

  // ---------------------------------------------------------------- builds that end

  ghost predicate Builds(types: Types, t: TypeId, comps: Components, s: Schema, comps': Components) {
    exists fuel: nat :: Build(types, fuel, t, comps) == Some((s, comps'))
  }

  ghost predicate BuildsFields(types: Types, owner: TypeId, fields: seq<Field>, comps: Components, fs: Fields, comps': Components) {
    exists fuel: nat :: BuildFields(types, fuel, owner, fields, comps) == Some((fs, comps'))
  }

  ghost predicate BuildsField(types: Types, owner: TypeId, f: Field, comps: Components, s: Schema, comps': Components) {
    exists fuel: nat :: BuildField(types, fuel, owner, f, comps) == Some((s, comps'))
  }

  ghost function Bare(types: Types, ord: Order, t: TypeId): (r: TypeId)
    requires Ranked(types, ord) && ord.inside(t)
    ensures ord.inside(r) && ord.rank(r) <= ord.rank(t) && !types(r).shape.Pointer?
    decreases ord.rank(t)
  {
    if types(t).shape.Pointer? then
      assert Uses(types, t, types(t).shape.elem);
      Bare(types, ord, types(t).shape.elem)
    else t
  }

  lemma {:induction false} BareBuilds(types: Types, ord: Order, t: TypeId, comps: Components, s: Schema, comps': Components)
    requires Ranked(types, ord) && ord.inside(t) && Builds(types, Bare(types, ord, t), comps, s, comps')
    ensures Builds(types, t, comps, s, comps')
    decreases ord.rank(t)
  {
    if types(t).shape.Pointer? {
      assert Uses(types, t, types(t).shape.elem);
      BareBuilds(types, ord, types(t).shape.elem, comps, s, comps');
      var fuel: nat :| Build(types, fuel, types(t).shape.elem, comps) == Some((s, comps'));
      assert Build(types, fuel + 1, t, comps) == Some((s, comps'));
    }
  }

  lemma {:induction false} BareDeref(types: Types, ord: Order, fuel: nat, t: TypeId)
    requires Ranked(types, ord) && ord.inside(t) && ord.rank(t) <= fuel
    ensures Deref(types, fuel, t) == Some(Bare(types, ord, t))
    decreases ord.rank(t)
  {
    if types(t).shape.Pointer? {
      assert Uses(types, t, types(t).shape.elem);
      BareDeref(types, ord, fuel - 1, types(t).shape.elem);
    }
  }

  lemma {:induction false} ElementBuilds(types: Types, t: TypeId, comps: Components, s: Schema, comps': Components)
    requires types(t).shape.ListOf? || types(t).shape.MapTo?
    requires Builds(types, types(t).shape.elem, comps, s, comps')
    ensures Builds(types, t, comps, if types(t).shape.ListOf? then ArrayOf(s) else DictOf(s), comps')
  {
    var fuel: nat :| Build(types, fuel, types(t).shape.elem, comps) == Some((s, comps'));
    assert Build(types, fuel + 1, t, comps).Some?;
  }

  lemma {:induction false} StructBuilds(types: Types, t: TypeId, comps: Components, fs: Fields, comps': Components)
    requires types(t).shape.Struct? && BuildsFields(types, t, types(t).shape.fields, comps, fs, comps')
    ensures Builds(types, t, comps, Object(fs.properties, fs.required), comps')
  {
    var fuel: nat :| BuildFields(types, fuel, t, types(t).shape.fields, comps) == Some((fs, comps'));
    assert Build(types, fuel + 1, t, comps).Some?;
  }

  lemma {:induction false} FieldStep(types: Types, owner: TypeId, fields: seq<Field>, i: nat, comps: Components,
                                     fs: Fields, c: Components, s: Schema, c': Components)
    requires i < |fields| && BuildsFields(types, owner, fields[..i], comps, fs, c)
    requires Shown(fields[i]) && BuildsField(types, owner, fields[i], c, s, c')
    ensures BuildsFields(types, owner, fields[..i + 1], comps, AddProperty(fs, fields[i], s), c')
  {
    var a: nat :| BuildFields(types, a, owner, fields[..i], comps) == Some((fs, c));
    var b: nat :| BuildField(types, b, owner, fields[i], c) == Some((s, c'));
    var fuel := a + b;
    FieldsMore(types, a, fuel, owner, fields[..i], comps);
    FieldMore(types, b, fuel, owner, fields[i], c);
    assert fields[..i + 1][..i] == fields[..i];
    assert BuildFields(types, fuel, owner, fields[..i + 1], comps) == Some((AddProperty(fs, fields[i], s), c'));
  }

  lemma {:induction false} FieldSkipped(types: Types, owner: TypeId, fields: seq<Field>, i: nat, comps: Components, fs: Fields, c: Components)
    requires i < |fields| && BuildsFields(types, owner, fields[..i], comps, fs, c) && !Shown(fields[i])
    ensures BuildsFields(types, owner, fields[..i + 1], comps, fs, c)
  {
    var fuel: nat :| BuildFields(types, fuel, owner, fields[..i], comps) == Some((fs, c));
    assert fields[..i + 1][..i] == fields[..i];
    assert BuildFields(types, fuel, owner, fields[..i + 1], comps) == Some((fs, c));
  }

  lemma {:induction false} InlineField(types: Types, ord: Order, owner: TypeId, f: Field, comps: Components, s: Schema, comps': Components)
    requires Ranked(types, ord) && ord.inside(f.ty) && !Referred(types, owner, Bare(types, ord, f.ty)) && Builds(types, f.ty, comps, s, comps')
    ensures BuildsField(types, owner, f, comps, s, comps')
  {
    var a: nat :| Build(types, a, f.ty, comps) == Some((s, comps'));
    var fuel := a + ord.rank(f.ty);
    BuildMore(types, a, fuel, f.ty, comps);
    BareDeref(types, ord, fuel, f.ty);
    assert BuildField(types, fuel, owner, f, comps) == Some((s, comps'));
  }

  lemma {:induction false} KnownField(types: Types, ord: Order, owner: TypeId, f: Field, comps: Components)
    requires Ranked(types, ord) && ord.inside(f.ty) && Referred(types, owner, Bare(types, ord, f.ty))
    requires types(Bare(types, ord, f.ty)).name in comps
    ensures BuildsField(types, owner, f, comps, Ref(RefText(types(Bare(types, ord, f.ty)).name)), comps)
  {
    var fuel := ord.rank(f.ty);
    BareDeref(types, ord, fuel, f.ty);
    assert BuildField(types, fuel, owner, f, comps) == Some((Ref(RefText(types(Bare(types, ord, f.ty)).name)), comps));
  }

  lemma {:induction false} NewField(types: Types, ord: Order, owner: TypeId, f: Field, comps: Components, s: Schema, comps': Components)
    requires Ranked(types, ord) && ord.inside(f.ty) && Referred(types, owner, Bare(types, ord, f.ty))
    requires types(Bare(types, ord, f.ty)).name !in comps && Builds(types, Bare(types, ord, f.ty), comps, s, comps')
    ensures var name := types(Bare(types, ord, f.ty)).name;
            BuildsField(types, owner, f, comps, Ref(RefText(name)), comps'[name := s])
  {
    var ft := Bare(types, ord, f.ty);
    var a: nat :| Build(types, a, ft, comps) == Some((s, comps'));
    var fuel := a + ord.rank(f.ty);
    BuildMore(types, a, fuel, ft, comps);
    BareDeref(types, ord, fuel, f.ty);
    assert BuildField(types, fuel, owner, f, comps) == Some((Ref(RefText(types(ft).name)), comps'[types(ft).name := s]));
  }

  lemma {:induction false} BuildsResolve(types: Types, t: TypeId, comps: Components, s: Schema, comps': Components)
    requires Closed(comps) && Builds(types, t, comps, s, comps')
    ensures Closed(comps') && Extends(comps, comps') && RefersIn(s, comps'.Keys)
  {
    var fuel: nat :| Build(types, fuel, t, comps) == Some((s, comps'));
    BuildResolves(types, fuel, t, comps);
  }

  lemma {:induction false} BuildsFaithful(types: Types, inside: TypeId -> bool, t: TypeId, comps: Components, s: Schema, comps': Components)
    requires OneName(types, inside) && inside(t) && Faithful(types, inside, comps) && Builds(types, t, comps, s, comps')
    ensures Faithful(types, inside, comps') && SchemaOf(types, t, s)
  {
    var fuel: nat :| Build(types, fuel, t, comps) == Some((s, comps'));
    BuildFaithful(types, inside, fuel, t, comps);
  }

  // A pointer has the schema of what it points to.
  lemma {:induction false} BareSchema(types: Types, ord: Order, t: TypeId, s: Schema)
    requires Ranked(types, ord) && ord.inside(t) && SchemaOf(types, t, s)
    ensures SchemaOf(types, Bare(types, ord, t), s)
    decreases ord.rank(t)
  {
    if types(t).shape.Pointer? {
      var elem := types(t).shape.elem;
      assert Uses(types, t, elem);
      var fuel: nat, comps, comps' :| Build(types, fuel, t, comps) == Some((s, comps'));
      assert Build(types, fuel - 1, elem, comps) == Some((s, comps'));
      BareSchema(types, ord, elem, s);
    }
  }

  // ---------------------------------------------------------------- the generator

  datatype Operation = Operation(request: Option<TypeId>, response: Option<TypeId>)

  datatype Route = Route(verb: string, path: string)

  // The texts of the references an entry of the document holds.
  datatype DocEntry = DocEntry(request: Option<string>, response: Option<string>)

  ghost predicate EntryRefers(e: DocEntry, comps: Components) {
    && (e.request.Some? ==> RefersTo(e.request.value, comps.Keys))
    && (e.response.Some? ==> RefersTo(e.response.value, comps.Keys))
  }

  lemma EntriesStay(paths: map<(string, string), DocEntry>, c: Components, c': Components)
    requires Extends(c, c') && forall k :: k in paths ==> EntryRefers(paths[k], c)
    ensures forall k :: k in paths ==> EntryRefers(paths[k], c')
  {
  }

  // The reference to a model behind its pointers, if it has a name.
  ghost function ModelRef(types: Types, ord: Order, model: Option<TypeId>): Option<string>
    requires Ranked(types, ord) && ModelInside(ord, model)
  {
    if model.None? || types(Bare(types, ord, model.value)).name == "" then None
    else Some(RefText(types(Bare(types, ord, model.value)).name))
  }

  predicate ModelInside(ord: Order, model: Option<TypeId>) {
    model.Some? ==> ord.inside(model.value)
  }

  predicate ModelsInside(ord: Order, op: Operation) {
    ModelInside(ord, op.request) && ModelInside(ord, op.response)
  }

  // The models of these routes lead into no circle of types.
  ghost predicate RoutesInside(ord: Order, opts: map<string, Operation>, routes: seq<Route>) {
    forall i :: 0 <= i < |routes| ==> ModelsInside(ord, OperationAt(opts, routes[i]))
  }

  function OperationAt(opts: map<string, Operation>, r: Route): Operation {
    if OptKey(r.verb, r.path) in opts then opts[OptKey(r.verb, r.path)] else Operation(None, None)
  }

  // If the model has a name, there is a component of that name.
  ghost predicate ModelPresent(types: Types, ord: Order, model: Option<TypeId>, comps: Components)
    requires Ranked(types, ord)
  {
    model.Some? && ord.inside(model.value) ==>
      types(Bare(types, ord, model.value)).name == "" || types(Bare(types, ord, model.value)).name in comps
  }

  // If the model has a name, the component of that name is its schema.
  ghost predicate ModelDescribed(types: Types, ord: Order, model: Option<TypeId>, comps: Components)
    requires Ranked(types, ord)
  {
    model.Some? && ord.inside(model.value) ==>
      var t := Bare(types, ord, model.value);
      types(t).name == "" || (types(t).name in comps && SchemaOf(types, t, comps[types(t).name]))
  }

  // The components that a route's entry refers to are the schemas of its models.
  ghost predicate ModelsDescribed(types: Types, ord: Order, opts: map<string, Operation>, routes: seq<Route>, comps: Components)
    requires Ranked(types, ord)
  {
    forall i :: 0 <= i < |routes| ==>
      && ModelDescribed(types, ord, OperationAt(opts, routes[i]).request, comps)
      && ModelDescribed(types, ord, OperationAt(opts, routes[i]).response, comps)
  }

  // The named models of the first n routes have components.
  ghost predicate AllPresent(types: Types, ord: Order, opts: map<string, Operation>, routes: seq<Route>, n: nat, comps: Components)
    requires Ranked(types, ord) && n <= |routes|
  {
    forall i :: 0 <= i < n ==>
      && ModelPresent(types, ord, OperationAt(opts, routes[i]).request, comps)
      && ModelPresent(types, ord, OperationAt(opts, routes[i]).response, comps)
  }

  lemma PresentNext(types: Types, ord: Order, opts: map<string, Operation>, routes: seq<Route>, n: nat, before: Components,
                    entry: DocEntry, comps: Components)
    requires Ranked(types, ord) && n < |routes| && AllPresent(types, ord, opts, routes, n, before) && Extends(before, comps)
    requires ModelsInside(ord, OperationAt(opts, routes[n])) && EntryRefers(entry, comps)
    requires entry == DocEntry(ModelRef(types, ord, OperationAt(opts, routes[n]).request), ModelRef(types, ord, OperationAt(opts, routes[n]).response))
    ensures AllPresent(types, ord, opts, routes, n + 1, comps)
  {
    RefPresent(types, ord, OperationAt(opts, routes[n]).request, comps);
    RefPresent(types, ord, OperationAt(opts, routes[n]).response, comps);
  }

  lemma RefPresent(types: Types, ord: Order, model: Option<TypeId>, comps: Components)
    requires Ranked(types, ord) && ModelInside(ord, model)
    requires ModelRef(types, ord, model).Some? ==> RefersTo(ModelRef(types, ord, model).value, comps.Keys)
    ensures ModelPresent(types, ord, model, comps)
  {
    if ModelRef(types, ord, model).Some? {
      var name := types(Bare(types, ord, model.value)).name;
      assert NameIn(RefText(name)) == name;
    }
  }

  lemma AllDescribed(types: Types, ord: Order, opts: map<string, Operation>, routes: seq<Route>, comps: Components)
    requires Ranked(types, ord) && Faithful(types, ord.inside, comps) && AllPresent(types, ord, opts, routes, |routes|, comps)
    ensures ModelsDescribed(types, ord, opts, routes, comps)
  {
  }

  // Types of a shop: users, orders and a number.
  function Shop(): Types {
    t => if t == 0 then GoType("User", Struct([Field("ID", true, "", 2, [])]))
         else if t == 1 then GoType("Order", Struct([Field("Total", true, "", 2, [])]))
         else GoType("int", Scalar(Integer))
  }

  lemma {:induction false} ShopSchema(t: TypeId)
    requires t <= 1
    ensures SchemaOf(Shop(), t, Object(map[if t == 0 then "ID" else "Total" := Property(Prim("integer", ""), [])], [if t == 0 then "ID" else "Total"]))
  {
    var ts := Shop();
    var fields := ts(t).shape.fields;
    var f := fields[0];
    assert fields == [f] && [f][..0] == [];
    assert JsonName(f) == (if t == 0 then "ID" else "Total", false);
    assert Deref(ts, 1, 2) == Some(2) && !Referred(ts, t, 2);
    assert Build(ts, 1, 2, map[]) == Some((Prim("integer", ""), map[]));
    assert BuildField(ts, 1, t, f, map[]) == Some((Prim("integer", ""), map[]));
    assert BuildFields(ts, 1, t, [], map[]) == Some((Fields(map[], []), map[]));
    assert BuildFields(ts, 1, t, fields, map[]) == Some((AddProperty(Fields(map[], []), f, Prim("integer", "")), map[]));
    var name := if t == 0 then "ID" else "Total";
    assert [] + [name] == [name];
    assert AddProperty(Fields(map[], []), f, Prim("integer", "")) == Fields(map[name := Property(Prim("integer", ""), [])], [name]);
    assert Build(ts, 2, t, map[]) == Some((Object(map[name := Property(Prim("integer", ""), [])], [name]), map[]));
  }

  /** An order registered under the name `User`: the component that references to users lead to is not
      the schema of a user. */
  lemma ForeignNameMisleads(comps: Components)
    requires "User" in comps && SchemaOf(Shop(), 1, comps["User"])
    ensures Shop()(0).name == "User" && !SchemaOf(Shop(), 0, comps["User"])
  {
    ShopSchema(0);
    ShopSchema(1);
    var user := Object(map["ID" := Property(Prim("integer", ""), [])], ["ID"]);
    var order := Object(map["Total" := Property(Prim("integer", ""), [])], ["Total"]);
    SchemaUnique(Shop(), 1, comps["User"], order);
    assert user.required[0] != order.required[0];
    if SchemaOf(Shop(), 0, comps["User"]) {
      SchemaUnique(Shop(), 0, comps["User"], user);
    }
  }

  // For each path template and method, the models of the last route that has them.
  ghost function Documented(types: Types, ord: Order, opts: map<string, Operation>, routes: seq<Route>): map<(string, string), DocEntry>
    requires Ranked(types, ord) && RoutesInside(ord, opts, routes)
  {
    if routes == [] then map[]
    else
      var r := routes[|routes| - 1];
      var op := OperationAt(opts, r);
      Documented(types, ord, opts, routes[..|routes| - 1])
        [(Template(r.path), ToLower(r.verb)) := DocEntry(ModelRef(types, ord, op.request), ModelRef(types, ord, op.response))]
  }

  // Every reference of the document, and every one inside a component, leads to its own component.
  ghost predicate DocumentResolves(paths: map<(string, string), DocEntry>, comps: Components) {
    && (forall k :: k in paths && paths[k].request.Some? ==> PointsTo(paths[k].request.value, comps.Keys))
    && (forall k :: k in paths && paths[k].response.Some? ==> PointsTo(paths[k].response.value, comps.Keys))
    && (forall n :: n in comps ==> PointsIn(comps[n], comps.Keys))
  }

  ghost predicate SimpleDocument(paths: map<(string, string), DocEntry>, comps: Components) {
    && (forall k :: k in paths && paths[k].request.Some? ==> SimpleRef(paths[k].request.value))
    && (forall k :: k in paths && paths[k].response.Some? ==> SimpleRef(paths[k].response.value))
    && (forall n :: n in comps ==> SimpleRefs(comps[n]))
  }

  lemma DocumentResolvesIff(paths: map<(string, string), DocEntry>, comps: Components)
    requires Closed(comps) && forall k :: k in paths ==> EntryRefers(paths[k], comps)
    ensures DocumentResolves(paths, comps) <==> SimpleDocument(paths, comps)
  {
    forall n | n in comps ensures PointsIn(comps[n], comps.Keys) <==> SimpleRefs(comps[n]) {
      PointsIffSimple(comps[n], comps.Keys);
    }
    forall k | k in paths && paths[k].request.Some?
      ensures PointsTo(paths[k].request.value, comps.Keys) <==> SimpleRef(paths[k].request.value)
    {
      PointsToIffSimple(paths[k].request.value, comps.Keys);
    }
    forall k | k in paths && paths[k].response.Some?
      ensures PointsTo(paths[k].response.value, comps.Keys) <==> SimpleRef(paths[k].response.value)
    {
      PointsToIffSimple(paths[k].response.value, comps.Keys);
    }
  }

  /** A generic model such as `Page[github.com/x/y.User]`: its reference leads nowhere, whatever
      components there are. */
  lemma GenericModelUnresolved(types: Types, ord: Order, model: TypeId, names: set<string>)
    requires Ranked(types, ord) && ord.inside(model)
    requires types(Bare(types, ord, model)).name == "Page[github.com/x/y.User]"
    ensures ModelRef(types, ord, Some(model)).Some?
    ensures !PointsTo(ModelRef(types, ord, Some(model)).value, names)
  {
    var name := "Page[github.com/x/y.User]";
    assert name[15] == '/';
    NotSimpleUnresolved(name, names);
  }

  function TemplatePart(part: string): string {
    if part != [] && (part[0] == ':' || part[0] == '*') then "{" + part[1..] + "}" else part
  }

  function Template(path: string): string {
    var parts := Split(path, '/');
    var out := Routes.Join(seq(|parts|, i requires 0 <= i < |parts| => TemplatePart(parts[i])));
    if out == "" then "/" else out
  }

  function OptKey(verb: string, path: string): string {
    ToUpper(verb) + " " + path
  }

  class Generator {
    const types: Types
    ghost const ord: Order
    var opts: map<string, Operation>
    var schemas: Components

    ghost predicate Valid()
      reads this
    {
      Ranked(types, ord) && Closed(schemas)
    }

    // Names tell the types inside apart, and every component with the name of one is its schema.
    ghost predicate Trusted()
      reads this
    {
      OneName(types, ord.inside) && Faithful(types, ord.inside, schemas)
    }

    constructor (types: Types, ghost ord: Order)
      requires Ranked(types, ord)
      ensures Valid() && this.types == types && opts == map[] && schemas == map[]
    {
      this.types, this.ord := types, ord;
      this.opts, this.schemas := map[], map[];
    }

    method StripPointers(t: TypeId) returns (r: TypeId)
      requires Ranked(types, ord) && ord.inside(t)
      ensures r == Bare(types, ord, t)
    {
      r := t;
      while types(r).shape.Pointer?
        invariant ord.inside(r) && Bare(types, ord, r) == Bare(types, ord, t)
        decreases ord.rank(r)
      {
        assert Uses(types, r, types(r).shape.elem);
        r := types(r).shape.elem;
      }
    }

    method BuildSchema(t0: TypeId) returns (s: Schema)
      requires Ranked(types, ord) && ord.inside(t0)
      modifies this`schemas
      ensures Builds(types, t0, old(schemas), s, schemas)
      decreases ord.rank(t0), 1
    {
      var t := StripPointers(t0);
      assert forall e :: Uses(types, t, e) ==> ord.inside(e) && ord.rank(e) < ord.rank(t);
      match types(t).shape {
        case Time =>
          s := Prim("string", "date-time");
          assert Build(types, 1, t, schemas) == Some((s, schemas));
        case Scalar(kind) =>
          s := PrimOf(kind);
          assert Build(types, 1, t, schemas) == Some((s, schemas));
        case ListOf(elem) =>
          var items := BuildSchema(elem);
          s := ArrayOf(items);
          ElementBuilds(types, t, old(schemas), items, schemas);
        case MapTo(elem) =>
          var values := BuildSchema(elem);
          s := DictOf(values);
          ElementBuilds(types, t, old(schemas), values, schemas);
        case Struct(fields) =>
          s := BuildStruct(t);
      }
      BareBuilds(types, ord, t0, old(schemas), s, schemas);
    }

    method BuildStruct(t: TypeId) returns (s: Schema)
      requires Ranked(types, ord) && ord.inside(t) && types(t).shape.Struct?
      modifies this`schemas
      ensures Builds(types, t, old(schemas), s, schemas)
      decreases ord.rank(t), 0
    {
      var fields := types(t).shape.fields;
      var fs := Fields(map[], []);
      assert BuildFields(types, 0, t, fields[..0], schemas) == Some((fs, schemas));
      for i := 0 to |fields|
        invariant BuildsFields(types, t, fields[..i], old(schemas), fs, schemas)
      {
        var f := fields[i];
        var (name, omit) := JsonName(f);
        if !f.exported || name == "" {
          FieldSkipped(types, t, fields, i, old(schemas), fs, schemas);
          continue;
        }
        ghost var before := schemas;
        assert Uses(types, t, f.ty);
        var ft := StripPointers(f.ty);
        var schema: Schema;
        if IsStruct(types(ft)) && types(ft).name != "" && types(ft).name != types(t).name {
          if types(ft).name !in schemas {
            var component := BuildSchema(ft);
            NewField(types, ord, t, f, before, component, schemas);
            schemas := schemas[types(ft).name := component];
          } else {
            KnownField(types, ord, t, f, before);
          }
          schema := Ref(RefText(types(ft).name));
        } else {
          schema := BuildSchema(f.ty);
          InlineField(types, ord, t, f, before, schema, schemas);
        }
        FieldStep(types, t, fields, i, old(schemas), fs, before, schema, schemas);
        fs := Fields(fs.properties[name := Property(schema, f.notes)], if omit then fs.required else fs.required + [name]);
      }
      assert fields[..|fields|] == fields;
      StructBuilds(types, t, old(schemas), fs, schemas);
      s := Object(fs.properties, fs.required);
    }

    method AddOperation(verb: string, path: string, op: Operation)
      modifies this`opts
      ensures opts == old(opts)[OptKey(verb, path) := op]
    {
      opts := opts[OptKey(verb, path) := op];
    }

    method RegisterSchema(name: string, model: Option<TypeId>)
      requires Valid() && (name != "" && name !in schemas ==> ModelInside(ord, model))
      modifies this`schemas
      ensures Valid() && Extends(old(schemas), schemas)
      ensures name == "" || model.None? || name in old(schemas) ==> schemas == old(schemas)
      ensures old(Trusted()) && (name != "" && model.Some? && name !in old(schemas) ==> name == types(Bare(types, ord, model.value)).name) ==>
                Trusted()
      ensures name != "" && model.Some? && name !in old(schemas) ==>
                name in schemas && exists c :: Builds(types, model.value, old(schemas), schemas[name], c) && schemas == c[name := schemas[name]]
    {
      if name == "" || model.None? || name in schemas {
        return;
      }
      var s := BuildSchema(model.value);
      BuildsResolve(types, model.value, old(schemas), s, schemas);
      ClosedWith(schemas, name, s);
      if old(Trusted()) && name == types(Bare(types, ord, model.value)).name {
        BuildsFaithful(types, ord.inside, model.value, old(schemas), s, schemas);
        BareSchema(types, ord, model.value, s);
        FaithfulWith(types, ord.inside, schemas, Bare(types, ord, model.value), s);
      }
      schemas := schemas[name := s];
    }

    method EnsureSchema(model: TypeId) returns (name: string)
      requires Valid() && ord.inside(model)
      modifies this`schemas
      ensures Valid() && Extends(old(schemas), schemas)
      ensures name == types(Bare(types, ord, model)).name && (name != "" ==> name in schemas)
      ensures old(Trusted()) ==> Trusted()
      ensures name == "" || name in old(schemas) ==> schemas == old(schemas)
      ensures name != "" && name !in old(schemas) ==>
                exists c :: Builds(types, Bare(types, ord, model), old(schemas), schemas[name], c) && schemas == c[name := schemas[name]]
    {
      var t := StripPointers(model);
      name := types(t).name;
      if name == "" {
        return;
      }
      if name !in schemas {
        var s := BuildSchema(t);
        BuildsResolve(types, t, old(schemas), s, schemas);
        ClosedWith(schemas, name, s);
        if old(Trusted()) {
          BuildsFaithful(types, ord.inside, t, old(schemas), s, schemas);
          FaithfulWith(types, ord.inside, schemas, t, s);
        }
        schemas := schemas[name := s];
      }
    }

    method RefTo(model: Option<TypeId>) returns (ref: Option<string>)
      requires Valid() && ModelInside(ord, model)
      modifies this`schemas
      ensures Valid() && Extends(old(schemas), schemas)
      ensures ref.Some? ==> RefersTo(ref.value, schemas.Keys)
      ensures old(Trusted()) ==> Trusted()
      ensures ref == ModelRef(types, ord, model)
    {
      if model.None? {
        return None;
      }
      var name := EnsureSchema(model.value);
      return if name == "" then None else Some(RefText(name));
    }

    /** Every reference in the document, and every one inside a component, was made for a component
        that is there; no component of an earlier document changes, so the same holds of all earlier
        documents.  As text they resolve exactly when none of these names holds `/`, `~` or `%`. */
    method BuildDocument(routes: seq<Route>) returns (paths: map<(string, string), DocEntry>)
      requires Valid() && RoutesInside(ord, opts, routes)
      modifies this`schemas
      ensures Valid() && Extends(old(schemas), schemas)
      ensures paths == Documented(types, ord, opts, routes)
      ensures forall k :: k in paths ==> EntryRefers(paths[k], schemas)
      ensures DocumentResolves(paths, schemas) <==> SimpleDocument(paths, schemas)
      ensures old(Trusted()) ==> Trusted() && ModelsDescribed(types, ord, opts, routes, schemas)
    {
      paths := map[];
      for i := 0 to |routes|
        invariant Valid() && Extends(old(schemas), schemas) && (old(Trusted()) ==> Trusted())
        invariant AllPresent(types, ord, opts, routes, i, schemas)
        invariant RoutesInside(ord, opts, routes[..i]) && paths == Documented(types, ord, opts, routes[..i])
        invariant forall k :: k in paths ==> EntryRefers(paths[k], schemas)
      {
        assert routes[..i + 1][..i] == routes[..i];
        assert ModelsInside(ord, OperationAt(opts, routes[i]));
        ghost var before := schemas;
        var entry := BuildEntry(OperationAt(opts, routes[i]));
        EntriesStay(paths, before, schemas);
        PresentNext(types, ord, opts, routes, i, before, entry, schemas);
        paths := paths[(Template(routes[i].path), ToLower(routes[i].verb)) := entry];
      }
      assert routes[..|routes|] == routes;
      DocumentResolvesIff(paths, schemas);
      if old(Trusted()) {
        AllDescribed(types, ord, opts, routes, schemas);
      }
    }

    method BuildEntry(op: Operation) returns (entry: DocEntry)
      requires Valid() && ModelsInside(ord, op)
      modifies this`schemas
      ensures Valid() && Extends(old(schemas), schemas)
      ensures entry == DocEntry(ModelRef(types, ord, op.request), ModelRef(types, ord, op.response))
      ensures EntryRefers(entry, schemas)
      ensures old(Trusted()) ==> Trusted()
    {
      var request := RefTo(op.request);
      var response := RefTo(op.response);
      return DocEntry(request, response);
    }
  }
}
