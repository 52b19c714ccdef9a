/** Building OpenAPI schemas from a graph of model types into a shared component map
    (openapi/schema.go). */
module Schemas {
  import opened Strings

  // ---------------------------------------------------------------- model types

  type TypeId = nat

  datatype Kind = Boolean | Integer | Float | Text | OtherKind

  datatype Shape =
    | Time
    | Scalar(kind: Kind)
    | Pointer(elem: TypeId)
    | ListOf(elem: TypeId)
    | MapTo(elem: TypeId)
    | Struct(fields: seq<Field>)

  // `notes` stands for the description, example and openapi tags of the field.
  datatype Field = Field(goName: string, exported: bool, json: string, ty: TypeId, notes: seq<string>)

  // `name` is empty for a type without a name.
  datatype GoType = GoType(name: string, shape: Shape)

  // Every type of the program, by identity; types may refer to each other in any way.
  type Types = TypeId -> GoType

  predicate IsStruct(g: GoType) {
    g.shape.Struct? || g.shape.Time?
  }

  // The JSON name of a field, empty when it is left out, and whether it may be absent.
  function JsonName(f: Field): (string, bool) {
    if f.json == "-" then ("", false)
    else if f.json == "" then (f.goName, false)
    else
      var parts := Split(f.json, ',');
      (if parts == [] || parts[0] == "" then f.goName else parts[0], parts != [] && "omitempty" in parts[1..])
  }

  predicate Shown(f: Field) {
    f.exported && JsonName(f).0 != ""
  }

  // ---------------------------------------------------------------- schemas

  datatype Schema =
    | Prim(kind: string, format: string)
    | ArrayOf(items: Schema)
    | DictOf(values: Schema)
    | Object(properties: map<string, Property>, required: seq<string>)
    | Ref(text: string)

  datatype Property = Property(schema: Schema, notes: seq<string>)

  type Components = map<string, Schema>

  const PREFIX := "#/components/schemas/"

  // The text of a `$ref`: the name goes in as it is.
  function RefText(name: string): string {
    PREFIX + name
  }

  // The name a reference was made for.
  function NameIn(text: string): string
    requires |text| >= |PREFIX|
  {
    text[|PREFIX|..]
  }

  function PrimOf(kind: Kind): Schema {
    match kind
    case Boolean => Prim("boolean", "")
    case Integer => Prim("integer", "")
    case Float => Prim("number", "")
    case Text => Prim("string", "")
    case OtherKind => Prim("string", "")
  }

  // ---------------------------------------------------------------- building, as far as the fuel lasts

  function Deref(types: Types, fuel: nat, t: TypeId): Option<TypeId> {
    if !types(t).shape.Pointer? then Some(t)
    else if fuel == 0 then None
    else Deref(types, fuel - 1, types(t).shape.elem)
  }

  datatype Fields = Fields(properties: map<string, Property>, required: seq<string>)

  function AddProperty(fs: Fields, f: Field, s: Schema): Fields {
    var (name, omit) := JsonName(f);
    Fields(fs.properties[name := Property(s, f.notes)], if omit then fs.required else fs.required + [name])
  }

  // A field of another named struct becomes a reference to a component.
  predicate Referred(types: Types, owner: TypeId, ft: TypeId) {
    IsStruct(types(ft)) && types(ft).name != "" && types(ft).name != types(owner).name
  }

  function Build(types: Types, fuel: nat, t: TypeId, comps: Components): Option<(Schema, Components)>
    decreases fuel, 0
  {
    if fuel == 0 then None
    else match types(t).shape
      case Pointer(elem) => Build(types, fuel - 1, elem, comps)
      case Time => Some((Prim("string", "date-time"), comps))
      case Scalar(kind) => Some((PrimOf(kind), comps))
      case ListOf(elem) =>
        (match Build(types, fuel - 1, elem, comps)
         case None => None
         case Some((s, c)) => Some((ArrayOf(s), c)))
      case MapTo(elem) =>
        (match Build(types, fuel - 1, elem, comps)
         case None => None
         case Some((s, c)) => Some((DictOf(s), c)))
      case Struct(fields) =>
        match BuildFields(types, fuel - 1, t, fields, comps)
        case None => None
        case Some((fs, c)) => Some((Object(fs.properties, fs.required), c))
  }

  function BuildFields(types: Types, fuel: nat, owner: TypeId, fields: seq<Field>, comps: Components): Option<(Fields, Components)>
    decreases fuel, 1 + |fields|
  {
    if fields == [] then Some((Fields(map[], []), comps))
    else
      var f := fields[|fields| - 1];
      match BuildFields(types, fuel, owner, fields[..|fields| - 1], comps)
      case None => None
      case Some((fs, c)) =>
        if !Shown(f) then Some((fs, c))
        else match BuildField(types, fuel, owner, f, c)
          case None => None
          case Some((s, c')) => Some((AddProperty(fs, f, s), c'))
  }

  function BuildField(types: Types, fuel: nat, owner: TypeId, f: Field, comps: Components): Option<(Schema, Components)>
    decreases fuel, 1
  {
    match Deref(types, fuel, f.ty)
    case None => None
    case Some(ft) =>
      if !Referred(types, owner, ft) then Build(types, fuel, f.ty, comps)
      else if types(ft).name in comps then Some((Ref(RefText(types(ft).name)), comps))
      else match Build(types, fuel, ft, comps)
        case None => None
        case Some((s, c)) => Some((Ref(RefText(types(ft).name)), c[types(ft).name := s]))
  }

  // ---------------------------------------------------------------- more fuel changes nothing

  lemma {:induction false} DerefMore(types: Types, fuel: nat, more: nat, t: TypeId)
    requires fuel <= more && Deref(types, fuel, t).Some?
    ensures Deref(types, more, t) == Deref(types, fuel, t)
  {
    if types(t).shape.Pointer? {
      DerefMore(types, fuel - 1, more - 1, types(t).shape.elem);
    }
  }

  lemma {:induction false} BuildMore(types: Types, fuel: nat, more: nat, t: TypeId, comps: Components)
    requires fuel <= more && Build(types, fuel, t, comps).Some?
    ensures Build(types, more, t, comps) == Build(types, fuel, t, comps)
    decreases fuel, 0
  {
    match types(t).shape
    case Pointer(elem) => BuildMore(types, fuel - 1, more - 1, elem, comps);
    case ListOf(elem) => BuildMore(types, fuel - 1, more - 1, elem, comps);
    case MapTo(elem) => BuildMore(types, fuel - 1, more - 1, elem, comps);
    case Struct(fields) => FieldsMore(types, fuel - 1, more - 1, t, fields, comps);
    case _ =>
  }

  lemma {:induction false} FieldsMore(types: Types, fuel: nat, more: nat, owner: TypeId, fields: seq<Field>, comps: Components)
    requires fuel <= more && BuildFields(types, fuel, owner, fields, comps).Some?
    ensures BuildFields(types, more, owner, fields, comps) == BuildFields(types, fuel, owner, fields, comps)
    decreases fuel, 1 + |fields|
  {
    if fields != [] {
      var init, f := fields[..|fields| - 1], fields[|fields| - 1];
      FieldsMore(types, fuel, more, owner, init, comps);
      if Shown(f) {
        FieldMore(types, fuel, more, owner, f, BuildFields(types, fuel, owner, init, comps).value.1);
      }
    }
  }

  lemma {:induction false} FieldMore(types: Types, fuel: nat, more: nat, owner: TypeId, f: Field, comps: Components)
    requires fuel <= more && BuildField(types, fuel, owner, f, comps).Some?
    ensures BuildField(types, more, owner, f, comps) == BuildField(types, fuel, owner, f, comps)
    decreases fuel, 1
  {
    DerefMore(types, fuel, more, f.ty);
    var ft := Deref(types, fuel, f.ty).value;
    if !Referred(types, owner, ft) {
      BuildMore(types, fuel, more, f.ty, comps);
    } else if types(ft).name !in comps {
      BuildMore(types, fuel, more, ft, comps);
    }
  }

  // ---------------------------------------------------------------- the result ignores the components

  lemma {:induction false} DerefSame(types: Types, a: nat, b: nat, t: TypeId)
    requires Deref(types, a, t).Some? && Deref(types, b, t).Some?
    ensures Deref(types, a, t) == Deref(types, b, t)
  {
    DerefMore(types, if a <= b then a else b, if a <= b then b else a, t);
  }

  /** Whatever the component maps hold, two builds of a type that end give the same schema. */
  lemma {:induction false} ResultIgnoresComponents(types: Types, a: nat, b: nat, t: TypeId, c: Components, d: Components)
    requires Build(types, a, t, c).Some? && Build(types, b, t, d).Some?
    ensures Build(types, a, t, c).value.0 == Build(types, b, t, d).value.0
    decreases a, 0
  {
    match types(t).shape
    case Pointer(elem) => ResultIgnoresComponents(types, a - 1, b - 1, elem, c, d);
    case ListOf(elem) => ResultIgnoresComponents(types, a - 1, b - 1, elem, c, d);
    case MapTo(elem) => ResultIgnoresComponents(types, a - 1, b - 1, elem, c, d);
    case Struct(fields) => FieldsIgnoreComponents(types, a - 1, b - 1, t, fields, c, d);
    case _ =>
  }

  lemma {:induction false} FieldsIgnoreComponents(types: Types, a: nat, b: nat, owner: TypeId, fields: seq<Field>, c: Components, d: Components)
    requires BuildFields(types, a, owner, fields, c).Some? && BuildFields(types, b, owner, fields, d).Some?
    ensures BuildFields(types, a, owner, fields, c).value.0 == BuildFields(types, b, owner, fields, d).value.0
    decreases a, 1 + |fields|
  {
    if fields != [] {
      var init, f := fields[..|fields| - 1], fields[|fields| - 1];
      FieldsIgnoreComponents(types, a, b, owner, init, c, d);
      if Shown(f) {
        var c', d' := BuildFields(types, a, owner, init, c).value.1, BuildFields(types, b, owner, init, d).value.1;
        DerefSame(types, a, b, f.ty);
        if !Referred(types, owner, Deref(types, a, f.ty).value) {
          ResultIgnoresComponents(types, a, b, f.ty, c', d');
        }
      }
    }
  }

  // ---------------------------------------------------------------- references are made for components

  predicate RefersTo(text: string, names: set<string>) {
    |text| >= |PREFIX| && text == RefText(NameIn(text)) && NameIn(text) in names
  }

  // Every reference in the schema was made for one of these names.
  ghost predicate RefersIn(s: Schema, names: set<string>) {
    match s
    case Prim(_, _) => true
    case ArrayOf(items) => RefersIn(items, names)
    case DictOf(values) => RefersIn(values, names)
    case Object(properties, _) => forall n :: n in properties ==> RefersIn(properties[n].schema, names)
    case Ref(text) => RefersTo(text, names)
  }

  ghost predicate Closed(comps: Components) {
    forall n :: n in comps ==> RefersIn(comps[n], comps.Keys)
  }

  ghost predicate Extends(c: Components, c': Components) {
    forall n :: n in c ==> n in c' && c'[n] == c[n]
  }

  lemma {:induction false} RefersMore(s: Schema, names: set<string>, more: set<string>)
    requires RefersIn(s, names) && names <= more
    ensures RefersIn(s, more)
    decreases s
  {
    match s
    case ArrayOf(items) => RefersMore(items, names, more);
    case DictOf(values) => RefersMore(values, names, more);
    case Object(properties, _) =>
      forall n | n in properties ensures RefersIn(properties[n].schema, more) {
        RefersMore(properties[n].schema, names, more);
      }
    case _ =>
  }

  lemma {:induction false} ClosedWith(comps: Components, name: string, s: Schema)
    requires Closed(comps) && RefersIn(s, comps.Keys)
    ensures Closed(comps[name := s])
  {
    var c := comps[name := s];
    forall n | n in c ensures RefersIn(c[n], c.Keys) {
      RefersMore(c[n], comps.Keys, c.Keys);
    }
  }

  /** A build keeps the components closed, changes none of them, and makes every reference it returns
      for a component that is there. */
  lemma {:induction false} BuildResolves(types: Types, fuel: nat, t: TypeId, comps: Components)
    requires Closed(comps) && Build(types, fuel, t, comps).Some?
    ensures var (s, c) := Build(types, fuel, t, comps).value; Closed(c) && Extends(comps, c) && RefersIn(s, c.Keys)
    decreases fuel, 0
  {
    match types(t).shape
    case Pointer(elem) => BuildResolves(types, fuel - 1, elem, comps);
    case ListOf(elem) => BuildResolves(types, fuel - 1, elem, comps);
    case MapTo(elem) => BuildResolves(types, fuel - 1, elem, comps);
    case Struct(fields) => FieldsResolve(types, fuel - 1, t, fields, comps);
    case _ =>
  }

  lemma {:induction false} FieldsResolve(types: Types, fuel: nat, owner: TypeId, fields: seq<Field>, comps: Components)
    requires Closed(comps) && BuildFields(types, fuel, owner, fields, comps).Some?
    ensures var (fs, c) := BuildFields(types, fuel, owner, fields, comps).value;
            && Closed(c) && Extends(comps, c)
            && forall n :: n in fs.properties ==> RefersIn(fs.properties[n].schema, c.Keys)
    decreases fuel, 1 + |fields|
  {
    if fields != [] {
      var init, f := fields[..|fields| - 1], fields[|fields| - 1];
      FieldsResolve(types, fuel, owner, init, comps);
      var (fs, c) := BuildFields(types, fuel, owner, init, comps).value;
      if Shown(f) {
        FieldResolves(types, fuel, owner, f, c);
        var (s, c') := BuildField(types, fuel, owner, f, c).value;
        forall n | n in fs.properties ensures RefersIn(fs.properties[n].schema, c'.Keys) {
          RefersMore(fs.properties[n].schema, c.Keys, c'.Keys);
        }
      }
    }
  }

  lemma {:induction false} FieldResolves(types: Types, fuel: nat, owner: TypeId, f: Field, comps: Components)
    requires Closed(comps) && BuildField(types, fuel, owner, f, comps).Some?
    ensures var (s, c) := BuildField(types, fuel, owner, f, comps).value; Closed(c) && Extends(comps, c) && RefersIn(s, c.Keys)
    decreases fuel, 1
  {
    var ft := Deref(types, fuel, f.ty).value;
    if !Referred(types, owner, ft) {
      BuildResolves(types, fuel, f.ty, comps);
    } else if types(ft).name !in comps {
      BuildResolves(types, fuel, ft, comps);
      var (s, c) := Build(types, fuel, ft, comps).value;
      ClosedWith(c, types(ft).name, s);
    }
  }

  // ---------------------------------------------------------------- when a build ends

  // Some of the types, those that are `inside`, and a rank for each.
  datatype Order = Order(inside: TypeId -> bool, rank: TypeId -> nat)

  // The type refers to `e` directly.
  predicate Uses(types: Types, t: TypeId, e: TypeId) {
    match types(t).shape
    case Pointer(elem) => e == elem
    case ListOf(elem) => e == elem
    case MapTo(elem) => e == elem
    case Struct(fields) => exists i :: 0 <= i < |fields| && Shown(fields[i]) && fields[i].ty == e
    case _ => false
  }

  // The types inside do not go in a circle: each refers to types inside of lower rank only.
  ghost predicate Ranked(types: Types, ord: Order) {
    forall t, e :: ord.inside(t) && Uses(types, t, e) ==> ord.inside(e) && ord.rank(e) < ord.rank(t)
  }

  lemma {:induction false} DerefRanked(types: Types, ord: Order, fuel: nat, t: TypeId)
    requires Ranked(types, ord) && ord.inside(t) && ord.rank(t) <= fuel
    ensures Deref(types, fuel, t).Some? && ord.inside(Deref(types, fuel, t).value) && ord.rank(Deref(types, fuel, t).value) <= ord.rank(t)
  {
    if types(t).shape.Pointer? {
      assert Uses(types, t, types(t).shape.elem);
      DerefRanked(types, ord, fuel - 1, types(t).shape.elem);
    }
  }

  /** Types that do not lead into a circle have a schema, whatever the components hold. */
  lemma {:induction false} RankedBuilds(types: Types, ord: Order, fuel: nat, t: TypeId, comps: Components)
    requires Ranked(types, ord) && ord.inside(t) && ord.rank(t) < fuel
    ensures Build(types, fuel, t, comps).Some?
    decreases fuel, 0
  {
    assert forall e :: Uses(types, t, e) ==> ord.inside(e) && ord.rank(e) < ord.rank(t);
    match types(t).shape
    case Pointer(elem) => RankedBuilds(types, ord, fuel - 1, elem, comps);
    case ListOf(elem) => RankedBuilds(types, ord, fuel - 1, elem, comps);
    case MapTo(elem) => RankedBuilds(types, ord, fuel - 1, elem, comps);
    case Struct(fields) => RankedFields(types, ord, fuel - 1, t, fields, comps);
    case _ =>
  }

  lemma {:induction false} RankedFields(types: Types, ord: Order, fuel: nat, owner: TypeId, fields: seq<Field>, comps: Components)
    requires Ranked(types, ord) && forall i :: 0 <= i < |fields| && Shown(fields[i]) ==> ord.inside(fields[i].ty) && ord.rank(fields[i].ty) < fuel
    ensures BuildFields(types, fuel, owner, fields, comps).Some?
    decreases fuel, 1 + |fields|
  {
    if fields != [] {
      var init, f := fields[..|fields| - 1], fields[|fields| - 1];
      RankedFields(types, ord, fuel, owner, init, comps);
      var c := BuildFields(types, fuel, owner, init, comps).value.1;
      if Shown(f) {
        DerefRanked(types, ord, fuel, f.ty);
        RankedBuilds(types, ord, fuel, f.ty, c);
        RankedBuilds(types, ord, fuel, Deref(types, fuel, f.ty).value, c);
      }
    }
  }

  /** A struct that holds itself, directly or behind a pointer, never gets a schema: nothing stops the
      recursion, whatever the components hold. */
  lemma {:induction false} SelfReferenceNeverEnds(types: Types, t: TypeId, i: nat, fuel: nat, comps: Components)
    requires types(t).shape.Struct? && i < |types(t).shape.fields|
    requires var f := types(t).shape.fields[i]; Shown(f) && (f.ty == t || types(f.ty).shape == Pointer(t))
    ensures Build(types, fuel, t, comps) == None
    decreases fuel, |types(t).shape.fields| + 1
  {
    if fuel > 0 {
      SelfFieldNeverEnds(types, t, i, fuel - 1, types(t).shape.fields, comps);
    }
  }

  lemma {:induction false} SelfFieldNeverEnds(types: Types, t: TypeId, i: nat, fuel: nat, fields: seq<Field>, comps: Components)
    requires types(t).shape.Struct? && i < |fields| && fields <= types(t).shape.fields
    requires var f := fields[i]; Shown(f) && (f.ty == t || types(f.ty).shape == Pointer(t))
    ensures BuildFields(types, fuel, t, fields, comps) == None
    decreases fuel, |types(t).shape.fields| + 2, |fields|
  {
    var init, f := fields[..|fields| - 1], fields[|fields| - 1];
    if i < |fields| - 1 {
      SelfFieldNeverEnds(types, t, i, fuel, init, comps);
    } else if BuildFields(types, fuel, t, init, comps).Some? {
      var c := BuildFields(types, fuel, t, init, comps).value.1;
      if f.ty == t {
        SelfReferenceNeverEnds(types, t, i, fuel, c);
      } else if fuel > 0 {
        assert Deref(types, fuel, f.ty) == Deref(types, fuel - 1, t) == Some(t);
        SelfReferenceNeverEnds(types, t, i, fuel - 1, c);
        assert Build(types, fuel, f.ty, c) == None;
        assert BuildField(types, fuel, t, f, c) == None;
      }
    }
  }

  // ---------------------------------------------------------------- components are the schemas of their types

  // The schema that every build of the type gives.
  ghost predicate SchemaOf(types: Types, t: TypeId, s: Schema) {
    exists fuel: nat, comps, comps' :: Build(types, fuel, t, comps) == Some((s, comps'))
  }

  lemma {:induction false} SchemaUnique(types: Types, t: TypeId, s: Schema, s': Schema)
    requires SchemaOf(types, t, s) && SchemaOf(types, t, s')
    ensures s == s'
  {
    var a: nat, c, c' :| Build(types, a, t, c) == Some((s, c'));
    var b: nat, d, d' :| Build(types, b, t, d) == Some((s', d'));
    ResultIgnoresComponents(types, a, b, t, c, d);
  }

  // The types inside refer to types inside, and no two of them share a name.
  ghost predicate OneName(types: Types, inside: TypeId -> bool) {
    && (forall t, e :: inside(t) && Uses(types, t, e) ==> inside(e))
    && (forall a, b :: inside(a) && inside(b) && types(a).name == types(b).name != "" ==> a == b)
  }

  // A component that has the name of a type inside is the schema of that type.
  ghost predicate Faithful(types: Types, inside: TypeId -> bool, comps: Components) {
    forall t :: inside(t) && types(t).name != "" && types(t).name in comps ==> SchemaOf(types, t, comps[types(t).name])
  }

  lemma FaithfulWith(types: Types, inside: TypeId -> bool, comps: Components, t: TypeId, s: Schema)
    requires OneName(types, inside) && Faithful(types, inside, comps)
    requires inside(t) && types(t).name != "" && SchemaOf(types, t, s)
    ensures Faithful(types, inside, comps[types(t).name := s])
  {
  }

  lemma {:induction false} DerefCloses(types: Types, inside: TypeId -> bool, fuel: nat, t: TypeId)
    requires OneName(types, inside) && inside(t) && Deref(types, fuel, t).Some?
    ensures inside(Deref(types, fuel, t).value)
  {
    if types(t).shape.Pointer? {
      assert Uses(types, t, types(t).shape.elem);
      DerefCloses(types, inside, fuel - 1, types(t).shape.elem);
    }
  }

  /** If no two types that a model leads to share a name, a build adds under each name the schema of the
      type that has it. */
  lemma {:induction false} BuildFaithful(types: Types, inside: TypeId -> bool, fuel: nat, t: TypeId, comps: Components)
    requires OneName(types, inside) && inside(t) && Faithful(types, inside, comps) && Build(types, fuel, t, comps).Some?
    ensures Faithful(types, inside, Build(types, fuel, t, comps).value.1)
    decreases fuel, 0
  {
    assert forall e :: Uses(types, t, e) ==> inside(e);
    match types(t).shape
    case Pointer(elem) => BuildFaithful(types, inside, fuel - 1, elem, comps);
    case ListOf(elem) => BuildFaithful(types, inside, fuel - 1, elem, comps);
    case MapTo(elem) => BuildFaithful(types, inside, fuel - 1, elem, comps);
    case Struct(fields) => FieldsFaithful(types, inside, fuel - 1, t, fields, comps);
    case _ =>
  }

  lemma {:induction false} FieldsFaithful(types: Types, inside: TypeId -> bool, fuel: nat, owner: TypeId, fields: seq<Field>, comps: Components)
    requires OneName(types, inside) && Faithful(types, inside, comps) && BuildFields(types, fuel, owner, fields, comps).Some?
    requires forall i :: 0 <= i < |fields| && Shown(fields[i]) ==> inside(fields[i].ty)
    ensures Faithful(types, inside, BuildFields(types, fuel, owner, fields, comps).value.1)
    decreases fuel, 1 + |fields|
  {
    if fields != [] {
      var init, f := fields[..|fields| - 1], fields[|fields| - 1];
      FieldsFaithful(types, inside, fuel, owner, init, comps);
      if Shown(f) {
        FieldFaithful(types, inside, fuel, owner, f, BuildFields(types, fuel, owner, init, comps).value.1);
      }
    }
  }

  lemma {:induction false} FieldFaithful(types: Types, inside: TypeId -> bool, fuel: nat, owner: TypeId, f: Field, comps: Components)
    requires OneName(types, inside) && inside(f.ty) && Faithful(types, inside, comps) && BuildField(types, fuel, owner, f, comps).Some?
    ensures Faithful(types, inside, BuildField(types, fuel, owner, f, comps).value.1)
    decreases fuel, 1
  {
    var ft := Deref(types, fuel, f.ty).value;
    DerefCloses(types, inside, fuel, f.ty);
    if !Referred(types, owner, ft) {
      BuildFaithful(types, inside, fuel, f.ty, comps);
    } else if types(ft).name !in comps {
      BuildFaithful(types, inside, fuel, ft, comps);
      var (s, c) := Build(types, fuel, ft, comps).value;
      assert SchemaOf(types, ft, s);
      FaithfulWith(types, inside, c, ft, s);
    }
  }

  // ---------------------------------------------------------------- exactly when a build ends

  // Every chain of types from `t` is shorter than k, where a chain does not enter a named struct
  // that already has a component.
  predicate Unwinds(types: Types, known: set<string>, k: nat, t: TypeId)
    decreases k, 0
  {
    k > 0 &&
    match types(t).shape
    case Pointer(elem) => Unwinds(types, known, k - 1, elem)
    case ListOf(elem) => Unwinds(types, known, k - 1, elem)
    case MapTo(elem) => Unwinds(types, known, k - 1, elem)
    case Struct(fields) => forall i :: 0 <= i < |fields| && Shown(fields[i]) ==> FieldUnwinds(types, known, k - 1, t, fields[i])
    case _ => true
  }

  predicate FieldUnwinds(types: Types, known: set<string>, k: nat, owner: TypeId, f: Field)
    decreases k, 1
  {
    match Deref(types, k, f.ty)
    case None => false
    case Some(ft) =>
      if !Referred(types, owner, ft) then Unwinds(types, known, k, f.ty)
      else types(ft).name in known || Unwinds(types, known, k, ft)
  }

  lemma {:induction false} UnwindsMore(types: Types, known: set<string>, k: nat, more: nat, t: TypeId)
    requires k <= more && Unwinds(types, known, k, t)
    ensures Unwinds(types, known, more, t)
    decreases k, 0
  {
    match types(t).shape
    case Pointer(elem) => UnwindsMore(types, known, k - 1, more - 1, elem);
    case ListOf(elem) => UnwindsMore(types, known, k - 1, more - 1, elem);
    case MapTo(elem) => UnwindsMore(types, known, k - 1, more - 1, elem);
    case Struct(fields) =>
      forall i | 0 <= i < |fields| && Shown(fields[i]) ensures FieldUnwinds(types, known, more - 1, t, fields[i]) {
        FieldUnwindsMore(types, known, k - 1, more - 1, t, fields[i]);
      }
    case _ =>
  }

  lemma {:induction false} FieldUnwindsMore(types: Types, known: set<string>, k: nat, more: nat, owner: TypeId, f: Field)
    requires k <= more && FieldUnwinds(types, known, k, owner, f)
    ensures FieldUnwinds(types, known, more, owner, f)
    decreases k, 1
  {
    DerefMore(types, k, more, f.ty);
    var ft := Deref(types, k, f.ty).value;
    if !Referred(types, owner, ft) {
      UnwindsMore(types, known, k, more, f.ty);
    } else if types(ft).name !in known {
      UnwindsMore(types, known, k, more, ft);
    }
  }

  // Components that are there only let a build end sooner.
  lemma {:induction false} UnwindingBuilds(types: Types, known: set<string>, k: nat, t: TypeId, comps: Components)
    requires known <= comps.Keys && Unwinds(types, known, k, t)
    ensures Build(types, k, t, comps).Some? && known <= Build(types, k, t, comps).value.1.Keys
    decreases k, 0
  {
    match types(t).shape
    case Pointer(elem) => UnwindingBuilds(types, known, k - 1, elem, comps);
    case ListOf(elem) => UnwindingBuilds(types, known, k - 1, elem, comps);
    case MapTo(elem) => UnwindingBuilds(types, known, k - 1, elem, comps);
    case Struct(fields) => UnwindingFields(types, known, k - 1, t, fields, comps);
    case _ =>
  }

  lemma {:induction false} UnwindingFields(types: Types, known: set<string>, k: nat, owner: TypeId, fields: seq<Field>, comps: Components)
    requires known <= comps.Keys && forall i :: 0 <= i < |fields| && Shown(fields[i]) ==> FieldUnwinds(types, known, k, owner, fields[i])
    ensures BuildFields(types, k, owner, fields, comps).Some? && known <= BuildFields(types, k, owner, fields, comps).value.1.Keys
    decreases k, 1 + |fields|
  {
    if fields != [] {
      var init, f := fields[..|fields| - 1], fields[|fields| - 1];
      UnwindingFields(types, known, k, owner, init, comps);
      var c := BuildFields(types, k, owner, init, comps).value.1;
      if Shown(f) {
        assert FieldUnwinds(types, known, k, owner, f);
        var ft := Deref(types, k, f.ty).value;
        if !Referred(types, owner, ft) {
          UnwindingBuilds(types, known, k, f.ty, c);
        } else if types(ft).name !in c {
          UnwindingBuilds(types, known, k, ft, c);
        }
      }
    }
  }

  // The types inside refer to types inside, and no two structs inside share a name.
  ghost predicate NamesUnique(types: Types, inside: TypeId -> bool) {
    && (forall t, e :: inside(t) && Uses(types, t, e) ==> inside(e))
    && (forall a, b :: inside(a) && inside(b) && IsStruct(types(a)) && IsStruct(types(b)) && types(a).name == types(b).name != "" ==> a == b)
  }

  ghost predicate NameUnwinds(types: Types, inside: TypeId -> bool, known: set<string>, name: string) {
    exists t, k: nat :: inside(t) && IsStruct(types(t)) && types(t).name == name && Unwinds(types, known, k, t)
  }

  lemma {:induction false} DerefInside(types: Types, inside: TypeId -> bool, fuel: nat, t: TypeId)
    requires NamesUnique(types, inside) && inside(t) && Deref(types, fuel, t).Some?
    ensures inside(Deref(types, fuel, t).value)
  {
    if types(t).shape.Pointer? {
      assert Uses(types, t, types(t).shape.elem);
      DerefInside(types, inside, fuel - 1, types(t).shape.elem);
    }
  }

  // Every component beyond the known ones belongs to a struct that unwinds.
  ghost predicate AllUnwind(types: Types, inside: TypeId -> bool, known: set<string>, comps: Components) {
    forall n :: n in comps && n !in known ==> NameUnwinds(types, inside, known, n)
  }

  lemma {:induction false} UnwindingOf(types: Types, inside: TypeId -> bool, known: set<string>, t: TypeId) returns (k: nat)
    requires NamesUnique(types, inside) && inside(t) && IsStruct(types(t)) && types(t).name != "" && NameUnwinds(types, inside, known, types(t).name)
    ensures Unwinds(types, known, k, t)
  {
    var u, b: nat :| inside(u) && IsStruct(types(u)) && types(u).name == types(t).name && Unwinds(types, known, b, u);
    assert u == t;
    k := b;
  }

  lemma {:induction false} BuiltUnwinds(types: Types, inside: TypeId -> bool, known: set<string>, fuel: nat, t: TypeId, comps: Components) returns (k: nat)
    requires NamesUnique(types, inside) && inside(t) && AllUnwind(types, inside, known, comps) && Build(types, fuel, t, comps).Some?
    ensures Unwinds(types, known, k, t) && AllUnwind(types, inside, known, Build(types, fuel, t, comps).value.1)
    decreases fuel, 0
  {
    assert forall e :: Uses(types, t, e) ==> inside(e);
    var j: nat := 0;
    match types(t).shape {
      case Pointer(elem) => j := BuiltUnwinds(types, inside, known, fuel - 1, elem, comps);
      case ListOf(elem) => j := BuiltUnwinds(types, inside, known, fuel - 1, elem, comps);
      case MapTo(elem) => j := BuiltUnwinds(types, inside, known, fuel - 1, elem, comps);
      case Struct(fields) => j := BuiltFieldsUnwind(types, inside, known, fuel - 1, t, fields, comps);
      case _ =>
    }
    k := j + 1;
  }

  lemma {:induction false} BuiltFieldsUnwind(types: Types, inside: TypeId -> bool, known: set<string>, fuel: nat, owner: TypeId, fields: seq<Field>, comps: Components) returns (k: nat)
    requires NamesUnique(types, inside) && AllUnwind(types, inside, known, comps) && BuildFields(types, fuel, owner, fields, comps).Some?
    requires forall i :: 0 <= i < |fields| && Shown(fields[i]) ==> inside(fields[i].ty)
    ensures forall i :: 0 <= i < |fields| && Shown(fields[i]) ==> FieldUnwinds(types, known, k, owner, fields[i])
    ensures AllUnwind(types, inside, known, BuildFields(types, fuel, owner, fields, comps).value.1)
    decreases fuel, 1 + |fields|
  {
    k := 0;
    if fields != [] {
      var init, f := fields[..|fields| - 1], fields[|fields| - 1];
      var a := BuiltFieldsUnwind(types, inside, known, fuel, owner, init, comps);
      k := a;
      if Shown(f) {
        var b := BuiltFieldUnwinds(types, inside, known, fuel, owner, f, BuildFields(types, fuel, owner, init, comps).value.1);
        k := a + b;
        FieldUnwindsMore(types, known, b, k, owner, f);
      }
      forall i | 0 <= i < |init| && Shown(fields[i]) ensures FieldUnwinds(types, known, k, owner, fields[i]) {
        assert fields[i] == init[i];
        FieldUnwindsMore(types, known, a, k, owner, fields[i]);
      }
    }
  }

  lemma {:induction false} BuiltFieldUnwinds(types: Types, inside: TypeId -> bool, known: set<string>, fuel: nat, owner: TypeId, f: Field, comps: Components) returns (k: nat)
    requires NamesUnique(types, inside) && inside(f.ty) && AllUnwind(types, inside, known, comps) && BuildField(types, fuel, owner, f, comps).Some?
    ensures FieldUnwinds(types, known, k, owner, f) && AllUnwind(types, inside, known, BuildField(types, fuel, owner, f, comps).value.1)
    decreases fuel, 1
  {
    var ft := Deref(types, fuel, f.ty).value;
    DerefInside(types, inside, fuel, f.ty);
    if !Referred(types, owner, ft) {
      var a := BuiltUnwinds(types, inside, known, fuel, f.ty, comps);
      k := a + fuel;
      UnwindsMore(types, known, a, k, f.ty);
    } else {
      var a: nat := 0;
      if types(ft).name !in comps {
        a := BuiltUnwinds(types, inside, known, fuel, ft, comps);
      } else if types(ft).name !in known {
        a := UnwindingOf(types, inside, known, ft);
      }
      k := a + fuel;
      if types(ft).name !in known {
        UnwindsMore(types, known, a, k, ft);
        assert NameUnwinds(types, inside, known, types(ft).name);
      }
    }
    DerefMore(types, fuel, k, f.ty);
  }

  /** If no two structs that the type leads to share a name, a build ends exactly when every chain of
      types from it ends, where chains stop at structs that have a component when the build starts. */
  lemma {:induction false} EndsExactlyWhenUnwinding(types: Types, inside: TypeId -> bool, t: TypeId, comps: Components)
    requires NamesUnique(types, inside) && inside(t)
    ensures (exists fuel: nat :: Build(types, fuel, t, comps).Some?) <==> (exists k: nat :: Unwinds(types, comps.Keys, k, t))
  {
    if fuel: nat :| Build(types, fuel, t, comps).Some? {
      var k := BuiltUnwinds(types, inside, comps.Keys, fuel, t, comps);
      assert Unwinds(types, comps.Keys, k, t);
    }
    if k: nat :| Unwinds(types, comps.Keys, k, t) {
      UnwindingBuilds(types, comps.Keys, k, t, comps);
      assert Build(types, k, t, comps).Some?;
    }
  }

  // Struct A has a field of a struct X and one of another struct X that holds itself.
  function Twins(): Types {
    t => if t == 0 then GoType("A", Struct([Field("f", true, "", 1, []), Field("g", true, "", 2, [])]))
         else if t == 1 then GoType("X", Struct([]))
         else GoType("X", Struct([Field("h", true, "", 2, [])]))
  }

  lemma {:induction false} TwinNeverUnwinds(k: nat)
    ensures !Unwinds(Twins(), {}, k, 2)
  {
    if k > 0 {
      TwinNeverUnwinds(k - 1);
      assert Shown(Twins()(2).shape.fields[0]);
      assert Deref(Twins(), k - 1, 2) == Some(2);
    }
  }

  /** With a shared name a build may end although a chain of types does not: the first X hides the
      second, which is never entered. */
  lemma {:induction false} SharedNameEndsEarly()
    ensures Build(Twins(), 2, 0, map[]).Some?
    ensures !exists k: nat :: Unwinds(Twins(), {}, k, 0)
  {
    var ts := Twins();
    var f, g := ts(0).shape.fields[0], ts(0).shape.fields[1];
    assert Shown(f) && Shown(g) && JsonName(f) == ("f", false) && JsonName(g) == ("g", false);
    assert Deref(ts, 1, 1) == Some(1) && Deref(ts, 1, 2) == Some(2);
    assert Build(ts, 1, 1, map[]) == Some((Object(map[], []), map[]));
    var c: Components := map["X" := Object(map[], [])];
    assert BuildField(ts, 1, 0, f, map[]) == Some((Ref(RefText("X")), c));
    assert BuildField(ts, 1, 0, g, c) == Some((Ref(RefText("X")), c));
    var fields := ts(0).shape.fields;
    assert fields[..1] == [f] && [f][..0] == [];
    assert BuildFields(ts, 1, 0, [f], map[]) == Some((AddProperty(Fields(map[], []), f, Ref(RefText("X"))), c));
    assert BuildFields(ts, 1, 0, fields, map[]).Some?;
    forall k: nat ensures !Unwinds(ts, {}, k, 0) {
      if k > 0 {
        TwinNeverUnwinds(k - 1);
        assert Deref(ts, k - 1, 2) == Some(2);
        assert !FieldUnwinds(ts, {}, k - 1, 0, g);
      }
    }
  }
}
