/** What the schema of a model holds, read off its fields: properties, required names and their schemas
    (openapi/schema.go). */
module SchemaShapes {
  import opened Strings
  import opened Schemas

  // ---------------------------------------------------------------- the json tag

  // The end of the tag, or another entry.
  predicate Ends(q: string) {
    q == "" || q[0] == ','
  }

  // The tag has this option after a comma.
  ghost predicate HasOption(tag: string, option: string) {
    exists p, q :: tag == p + "," + option + q && Ends(q)
  }

  // The first entry of the tag.
  ghost predicate StartsWithName(tag: string, name: string) {
    ',' !in name && exists q :: tag == name + q && Ends(q)
  }

  lemma {:induction false} FirstOf(tag: string) returns (name: string, rest: string)
    ensures Split(tag, ',') != [] && Split(tag, ',')[0] == name && ',' !in name
    ensures |Split(tag, ',')| == 1 ==> tag == name
    ensures |Split(tag, ',')| > 1 ==> tag == name + "," + rest && Split(rest, ',') == Split(tag, ',')[1..]
  {
    name, rest := "", "";
    if tag != [] {
      var n, r := FirstOf(tag[1..]);
      assert tag == [tag[0]] + tag[1..];
      if tag[0] == ',' {
        rest := tag[1..];
      } else {
        name, rest := [tag[0]] + n, r;
      }
    }
  }

  lemma NotLonger(tag: string, a: string, p: string, b: string, q: string)
    requires tag == a + p && Ends(p) && tag == b + q && ',' !in b
    ensures |b| <= |a|
  {
    assert p != "" ==> tag[|a|] == p[0];
    assert forall i :: 0 <= i < |b| ==> tag[i] == b[i] && b[i] != ',';
  }

  lemma NameUnique(tag: string, a: string, b: string)
    requires StartsWithName(tag, a) && StartsWithName(tag, b)
    ensures a == b
  {
    var p :| tag == a + p && Ends(p);
    var q :| tag == b + q && Ends(q);
    NotLonger(tag, a, p, b, q);
    NotLonger(tag, b, q, a, p);
    assert a == tag[..|a|] && b == tag[..|b|];
  }

  lemma {:induction false} SplitAt(p: string, q: string)
    ensures Split(p + "," + q, ',') == Split(p, ',') + Split(q, ',') && Split(p, ',') != []
  {
    if p == [] {
      assert (p + "," + q)[1..] == q;
    } else {
      SplitAt(p[1..], q);
      assert (p + "," + q)[1..] == p[1..] + "," + q;
    }
  }

  lemma HasIt(tag: string, p: string, option: string, q: string)
    requires tag == p + "," + option + q && Ends(q)
    ensures HasOption(tag, option)
  {
  }

  lemma Longer(name: string, p: string, option: string, q: string)
    ensures name + "," + (p + "," + option + q) == (name + "," + p) + "," + option + q
    ensures name + "," + (option + q) == name + "," + option + q
  {
  }

  lemma NextEntry(name: string, rest: string)
    ensures Split(rest, ',') != [] && HasOption(name + "," + rest, Split(rest, ',')[0])
  {
    var first, more := FirstOf(rest);
    var q := if |Split(rest, ',')| == 1 then "" else "," + more;
    assert rest == first + q;
    Longer(name, "", first, q);
    HasIt(name + "," + rest, name, first, q);
  }

  lemma FurtherEntry(name: string, rest: string, option: string)
    requires HasOption(rest, option)
    ensures HasOption(name + "," + rest, option)
  {
    var p, q :| rest == p + "," + option + q && Ends(q);
    Longer(name, p, option, q);
    HasIt(name + "," + rest, name + "," + p, option, q);
  }

  // An entry after the first is an option between commas.
  lemma {:induction false} LaterEntry(tag: string, option: string)
    requires Split(tag, ',') != [] && option in Split(tag, ',')[1..]
    ensures HasOption(tag, option)
    decreases |tag|
  {
    var name, rest := FirstOf(tag);
    assert |rest| < |tag|;
    NextEntry(name, rest);
    var entries := Split(rest, ',');
    if entries[0] != option {
      assert entries == [entries[0]] + entries[1..];
      LaterEntry(rest, option);
      FurtherEntry(name, rest, option);
    }
  }

  lemma FirstEntry(option: string, q: string)
    requires ',' !in option && Ends(q)
    ensures Split(option + q, ',') != [] && Split(option + q, ',')[0] == option
  {
    if q == "" {
      assert option + q == option;
      SplitWhole(option, ',');
    } else {
      assert option + q == option + [','] + q[1..];
      SplitFirst(option, ',', q[1..]);
    }
  }

  lemma OptionEntry(tag: string, option: string)
    requires ',' !in option && HasOption(tag, option)
    ensures Split(tag, ',') != [] && option in Split(tag, ',')[1..]
  {
    var p, q :| tag == p + "," + option + q && Ends(q);
    Longer(p, "", option, q);
    SplitAt(p, option + q);
    FirstEntry(option, q);
    InSecond(Split(p, ','), Split(option + q, ','), option);
  }

  lemma InSecond(a: seq<string>, b: seq<string>, x: string)
    requires a != [] && b != [] && b[0] == x
    ensures x in (a + b)[1..]
  {
    assert (a + b)[1..][|a| - 1] == x;
  }

  /** A field goes by the first entry of its json tag, or by its own name where that is empty, and may be
      absent exactly when `omitempty` is a later entry; the tag `-` leaves it out. */
  lemma JsonNames(f: Field)
    requires f.json != "-"
    ensures StartsWithName(f.json, "") ==> JsonName(f).0 == f.goName
    ensures forall name :: name != "" && StartsWithName(f.json, name) ==> JsonName(f).0 == name
    ensures JsonName(f).1 <==> HasOption(f.json, "omitempty")
  {
    var name, rest := FirstOf(f.json);
    assert StartsWithName(f.json, name) by {
      if |Split(f.json, ',')| == 1 {
        assert f.json == name + "";
      } else {
        assert f.json == name + ("," + rest);
      }
    }
    forall other | StartsWithName(f.json, other) ensures other == name {
      NameUnique(f.json, other, name);
    }
    if HasOption(f.json, "omitempty") {
      OptionEntry(f.json, "omitempty");
    }
    if "omitempty" in Split(f.json, ',')[1..] {
      LaterEntry(f.json, "omitempty");
    }
  }

  /** A field is left out exactly when it is not exported or its json tag is `-`. */
  lemma ShownFields(f: Field)
    requires f.goName != ""
    ensures Shown(f) <==> f.exported && f.json != "-"
  {
    var name, rest := FirstOf(f.json);
  }

  // ---------------------------------------------------------------- the properties of a struct

  // The names of the shown fields, and of those that must be present, in the order of the fields.
  function ShownNames(fields: seq<Field>): set<string> {
    set i | 0 <= i < |fields| && Shown(fields[i]) :: JsonName(fields[i]).0
  }

  function RequiredNames(fields: seq<Field>): seq<string> {
    if fields == [] then []
    else if Shown(fields[0]) && !JsonName(fields[0]).1 then [JsonName(fields[0]).0] + RequiredNames(fields[1..])
    else RequiredNames(fields[1..])
  }

  lemma {:induction false} RequiredAppend(fields: seq<Field>, f: Field)
    ensures RequiredNames(fields + [f]) == RequiredNames(fields) + if Shown(f) && !JsonName(f).1 then [JsonName(f).0] else []
  {
    if fields == [] {
      assert (fields + [f])[1..] == [];
    } else {
      assert (fields + [f])[1..] == fields[1..] + [f];
      RequiredAppend(fields[1..], f);
    }
  }

  lemma ShownAppend(fields: seq<Field>, f: Field)
    ensures ShownNames(fields + [f]) == ShownNames(fields) + if Shown(f) then {JsonName(f).0} else {}
  {
    var all := fields + [f];
    forall name | name in ShownNames(fields) ensures name in ShownNames(all) {
      var i :| 0 <= i < |fields| && Shown(fields[i]) && JsonName(fields[i]).0 == name;
      assert all[i] == fields[i];
    }
    if Shown(f) {
      assert all[|fields|] == f;
    }
  }

  ghost predicate HoldsFields(fs: Fields, fields: seq<Field>) {
    fs.properties.Keys == ShownNames(fields) && fs.required == RequiredNames(fields)
  }

  lemma AddHolds(fs: Fields, init: seq<Field>, f: Field, s: Schema)
    requires HoldsFields(fs, init)
    ensures HoldsFields(if Shown(f) then AddProperty(fs, f, s) else fs, init + [f])
  {
    ShownAppend(init, f);
    RequiredAppend(init, f);
  }

  lemma {:induction false} FieldsHold(types: Types, fuel: nat, owner: TypeId, fields: seq<Field>, comps: Components)
    requires BuildFields(types, fuel, owner, fields, comps).Some?
    ensures HoldsFields(BuildFields(types, fuel, owner, fields, comps).value.0, fields)
    decreases |fields|
  {
    if fields != [] {
      var init, f := fields[..|fields| - 1], fields[|fields| - 1];
      FieldsHold(types, fuel, owner, init, comps);
      assert fields == init + [f];
      var (fs, c) := BuildFields(types, fuel, owner, init, comps).value;
      AddHolds(fs, init, f, if Shown(f) then BuildField(types, fuel, owner, f, c).value.0 else Prim("", ""));
    }
  }

  /** The schema of a struct has one property for each name of a shown field, and requires those whose
      field may not be absent, in the order of the fields. */
  lemma StructHolds(types: Types, fuel: nat, t: TypeId, fields: seq<Field>, comps: Components)
    requires types(t).shape == Struct(fields) && Build(types, fuel, t, comps).Some?
    ensures var s := Build(types, fuel, t, comps).value.0;
            s.Object? && s.properties.Keys == ShownNames(fields) && s.required == RequiredNames(fields)
  {
    FieldsHold(types, fuel - 1, t, fields, comps);
  }

  // What a type is behind its pointers.
  ghost predicate PointsTo(types: Types, t: TypeId, target: TypeId, n: nat)
    decreases n
  {
    if n == 0 then t == target && !types(t).shape.Pointer?
    else types(t).shape.Pointer? && PointsTo(types, types(t).shape.elem, target, n - 1)
  }

  lemma {:induction false} DerefFollows(types: Types, fuel: nat, t: TypeId, target: TypeId, n: nat)
    requires PointsTo(types, t, target, n) && Deref(types, fuel, t).Some?
    ensures Deref(types, fuel, t) == Some(target)
  {
    if n > 0 {
      DerefFollows(types, fuel - 1, types(t).shape.elem, target, n - 1);
    }
  }

  // The last shown field of that name.
  ghost predicate LastNamed(fields: seq<Field>, i: nat, name: string) {
    && i < |fields| && Shown(fields[i]) && JsonName(fields[i]).0 == name
    && forall j :: i < j < |fields| && Shown(fields[j]) ==> JsonName(fields[j]).0 != name
  }

  lemma {:induction false} FieldReached(types: Types, fuel: nat, owner: TypeId, fields: seq<Field>, comps: Components, i: nat, name: string)
    returns (c: Components)
    requires BuildFields(types, fuel, owner, fields, comps).Some? && LastNamed(fields, i, name)
    ensures BuildField(types, fuel, owner, fields[i], c).Some?
    ensures name in BuildFields(types, fuel, owner, fields, comps).value.0.properties
    ensures BuildFields(types, fuel, owner, fields, comps).value.0.properties[name] ==
            Property(BuildField(types, fuel, owner, fields[i], c).value.0, fields[i].notes)
    decreases |fields|
  {
    var init, f := fields[..|fields| - 1], fields[|fields| - 1];
    if i == |fields| - 1 {
      c := BuildFields(types, fuel, owner, init, comps).value.1;
    } else {
      assert Shown(f) ==> JsonName(f).0 != name;
      c := FieldReached(types, fuel, owner, init, comps, i, name);
    }
  }

  /** A property carries the notes of the last shown field of its name.  If that field is a struct with a
      name other than the owner's, behind any pointers, its schema is a reference to that name; otherwise
      it is the schema of the field's type. */
  lemma PropertyHolds(types: Types, fuel: nat, t: TypeId, fields: seq<Field>, comps: Components, i: nat, name: string, ft: TypeId, n: nat)
    requires types(t).shape == Struct(fields) && Build(types, fuel, t, comps).Some?
    requires LastNamed(fields, i, name) && PointsTo(types, fields[i].ty, ft, n)
    ensures var s, g := Build(types, fuel, t, comps).value.0, types(ft);
            && s.Object? && name in s.properties && s.properties[name].notes == fields[i].notes
            && ((g.shape.Struct? || g.shape.Time?) && g.name != "" && g.name != types(t).name ==>
                  s.properties[name].schema == Ref("#/components/schemas/" + g.name))
            && (!((g.shape.Struct? || g.shape.Time?) && g.name != "" && g.name != types(t).name) ==>
                  exists c, more :: Build(types, more, fields[i].ty, c).Some? && Build(types, more, fields[i].ty, c).value.0 == s.properties[name].schema)
  {
    var c := FieldReached(types, fuel - 1, t, fields, comps, i, name);
    DerefFollows(types, fuel - 1, fields[i].ty, ft, n);
    if !Referred(types, t, ft) {
      assert Build(types, fuel - 1, fields[i].ty, c).Some?;
    }
  }

  /** The schemas of the other types. */
  lemma PlainSchemas(types: Types, fuel: nat, t: TypeId, comps: Components)
    requires Build(types, fuel, t, comps).Some?
    ensures var s := Build(types, fuel, t, comps).value.0;
            match types(t).shape
            case Scalar(Boolean) => s == Prim("boolean", "")
            case Scalar(Integer) => s == Prim("integer", "")
            case Scalar(Float) => s == Prim("number", "")
            case Scalar(Text) => s == Prim("string", "")
            case Scalar(OtherKind) => s == Prim("string", "")
            case Time => s == Prim("string", "date-time")
            case Pointer(elem) => Build(types, fuel - 1, elem, comps).Some? && s == Build(types, fuel - 1, elem, comps).value.0
            case ListOf(elem) => Build(types, fuel - 1, elem, comps).Some? && s == ArrayOf(Build(types, fuel - 1, elem, comps).value.0)
            case MapTo(elem) => Build(types, fuel - 1, elem, comps).Some? && s == DictOf(Build(types, fuel - 1, elem, comps).value.0)
            case Struct(_) => s.Object?
  {
  }
}
