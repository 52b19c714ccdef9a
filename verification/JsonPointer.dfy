/** What the text of a `$ref` leads to: a URI fragment read as a JSON pointer (section 6 of RFC 6901)
    into the document's schemas (openapi/schema.go, openapi/openapi.go). */
module JsonPointer {
  import opened Strings
  import opened Schemas

  // ---------------------------------------------------------------- reading a pointer

  predicate IsHex(c: char) {
    '0' <= c <= '9' || 'a' <= c <= 'f' || 'A' <= c <= 'F'
  }

  function HexValue(c: char): nat
    requires IsHex(c)
  {
    if c <= '9' then c as nat - '0' as nat
    else if c <= 'F' then c as nat - 'A' as nat + 10
    else c as nat - 'a' as nat + 10
  }

  // `%` and two hexadecimal digits stand for a byte; any other `%` is malformed.
  function PercentDecode(s: string): Option<string> {
    if s == [] then Some([])
    else if s[0] != '%' then
      match PercentDecode(s[1..])
      case None => None
      case Some(t) => Some([s[0]] + t)
    else if |s| < 3 || !IsHex(s[1]) || !IsHex(s[2]) then None
    else
      match PercentDecode(s[3..])
      case None => None
      case Some(t) => Some([(16 * HexValue(s[1]) + HexValue(s[2])) as char] + t)
  }

  // `~0` stands for `~` and `~1` for `/`; any other `~` is malformed.
  function Unescape(s: string): Option<string> {
    if s == [] then Some([])
    else if s[0] != '~' then
      match Unescape(s[1..])
      case None => None
      case Some(t) => Some([s[0]] + t)
    else if |s| < 2 || (s[1] != '0' && s[1] != '1') then None
    else
      match Unescape(s[2..])
      case None => None
      case Some(t) => Some([if s[1] == '0' then '~' else '/'] + t)
  }

  // The component that a reference leads to: its pointer has the steps `components`, `schemas` and a name.
  function ComponentOf(text: string): Option<string> {
    if text == [] || text[0] != '#' then None
    else
      match PercentDecode(text[1..])
      case None => None
      case Some(p) =>
        var steps := Split(p, '/');
        if |steps| == 4 && steps[..3] == ["", "components", "schemas"] then Unescape(steps[3]) else None
  }

  // The reference leads to the component it was made for.
  predicate PointsTo(text: string, names: set<string>) {
    RefersTo(text, names) && ComponentOf(text) == Some(NameIn(text))
  }

  ghost predicate PointsIn(s: Schema, names: set<string>) {
    match s
    case Prim(_, _) => true
    case ArrayOf(items) => PointsIn(items, names)
    case DictOf(values) => PointsIn(values, names)
    case Object(properties, _) => forall n :: n in properties ==> PointsIn(properties[n].schema, names)
    case Ref(text) => PointsTo(text, names)
  }

  // ---------------------------------------------------------------- names that survive as they are

  predicate Simple(name: string) {
    '/' !in name && '~' !in name && '%' !in name
  }

  predicate SimpleRef(text: string) {
    |text| >= |PREFIX| && Simple(NameIn(text))
  }

  ghost predicate SimpleRefs(s: Schema) {
    match s
    case Prim(_, _) => true
    case ArrayOf(items) => SimpleRefs(items)
    case DictOf(values) => SimpleRefs(values)
    case Object(properties, _) => forall n :: n in properties ==> SimpleRefs(properties[n].schema)
    case Ref(text) => SimpleRef(text)
  }

  lemma {:induction false} DecodeAfter(a: string, b: string)
    requires '%' !in a
    ensures PercentDecode(a + b) == match PercentDecode(b) case None => None case Some(t) => Some(a + t)
  {
    if a == [] {
      assert a + b == b;
      match PercentDecode(b)
      case None =>
      case Some(t) => assert a + t == t;
    } else {
      assert a[0] in a && (a + b)[0] == a[0] && (a + b)[1..] == a[1..] + b;
      DecodeAfter(a[1..], b);
      match PercentDecode(b)
      case None =>
      case Some(t) => assert [a[0]] + (a[1..] + t) == a + t;
    }
  }

  lemma {:induction false} DecodeShrinks(s: string)
    requires PercentDecode(s).Some?
    ensures |PercentDecode(s).value| <= |s|
    ensures '%' in s ==> |PercentDecode(s).value| < |s|
    ensures '%' !in s ==> PercentDecode(s).value == s
  {
    if s != [] {
      assert s == [s[0]] + s[1..];
      if s[0] != '%' {
        DecodeShrinks(s[1..]);
      } else {
        DecodeShrinks(s[3..]);
      }
    }
  }

  lemma {:induction false} DecodePlain(s: string)
    requires '%' !in s
    ensures PercentDecode(s) == Some(s)
  {
    DecodeAfter(s, []);
    assert s + [] == s;
  }

  lemma {:induction false} UnescapeShrinks(s: string)
    requires Unescape(s).Some?
    ensures |Unescape(s).value| <= |s|
    ensures '~' in s ==> |Unescape(s).value| < |s|
  {
    if s != [] {
      assert s == [s[0]] + s[1..];
      if s[0] != '~' {
        UnescapeShrinks(s[1..]);
      } else {
        UnescapeShrinks(s[2..]);
      }
    }
  }

  lemma {:induction false} UnescapePlain(s: string)
    requires '~' !in s
    ensures Unescape(s) == Some(s)
  {
    if s != [] {
      assert s[0] in s && [s[0]] + s[1..] == s;
      UnescapePlain(s[1..]);
    }
  }

  lemma {:induction false} SplitCounts(s: string)
    ensures Split(s, '/') != []
    ensures '/' in s ==> |Split(s, '/')| > 1
  {
    if s != [] {
      SplitCounts(s[1..]);
      assert s == [s[0]] + s[1..];
    }
  }

  lemma {:induction false} TwoStepsSplit(a: string, b: string, d: string)
    requires '/' !in a && '/' !in b
    ensures Split("/" + a + "/" + b + "/" + d, '/') == ["", a, b] + Split(d, '/')
  {
    SplitFirst(b, '/', d);
    SplitFirst(a, '/', b + "/" + d);
    var rest := a + "/" + (b + "/" + d);
    assert "/" + a + "/" + b + "/" + d == "/" + rest;
    assert ("/" + rest)[1..] == rest;
  }

  lemma {:induction false} HeadSplits(d: string)
    ensures Split("/components/schemas/" + d, '/') == ["", "components", "schemas"] + Split(d, '/')
  {
    TwoStepsSplit("components", "schemas", d);
    assert "/" + "components" + "/" + "schemas" + "/" == "/components/schemas/";
  }

  // Reading the reference made for a name: percent signs first, then slashes, then tildes.
  lemma {:induction false} PointerTo(name: string)
    ensures ComponentOf(RefText(name)) ==
            match PercentDecode(name)
            case None => None
            case Some(d) => if '/' in d then None else Unescape(d)
  {
    assert RefText(name)[1..] == "/components/schemas/" + name && RefText(name)[0] == '#';
    DecodeAfter("/components/schemas/", name);
    match PercentDecode(name)
    case None =>
    case Some(d) =>
      HeadSplits(d);
      SplitCounts(d);
      var steps := ["", "components", "schemas"] + Split(d, '/');
      assert steps[..3] == ["", "components", "schemas"];
      if '/' !in d {
        SplitWhole(d, '/');
      }
  }

  /** The reference made for a name leads to that name exactly when it holds no `/`, `~` or `%`. */
  lemma {:induction false} RefResolvesIff(name: string)
    ensures ComponentOf(RefText(name)) == Some(name) <==> Simple(name)
  {
    PointerTo(name);
    if Simple(name) {
      DecodePlain(name);
      UnescapePlain(name);
    } else if PercentDecode(name).Some? {
      var d := PercentDecode(name).value;
      DecodeShrinks(name);
      if Unescape(d).Some? {
        UnescapeShrinks(d);
      }
    }
  }

  lemma NotSimpleUnresolved(name: string, names: set<string>)
    requires !Simple(name)
    ensures !PointsTo(RefText(name), names)
  {
    RefResolvesIff(name);
    assert NameIn(RefText(name)) == name;
  }

  lemma PointsToIffSimple(text: string, names: set<string>)
    requires RefersTo(text, names)
    ensures PointsTo(text, names) <==> SimpleRef(text)
  {
    RefResolvesIff(NameIn(text));
  }

  /** The references of a schema all lead to their components exactly when none of their names holds
      `/`, `~` or `%`. */
  lemma {:induction false} PointsIffSimple(s: Schema, names: set<string>)
    requires RefersIn(s, names)
    ensures PointsIn(s, names) <==> SimpleRefs(s)
    decreases s
  {
    match s
    case ArrayOf(items) => PointsIffSimple(items, names);
    case DictOf(values) => PointsIffSimple(values, names);
    case Object(properties, _) =>
      forall n | n in properties ensures PointsIn(properties[n].schema, names) <==> SimpleRefs(properties[n].schema) {
        PointsIffSimple(properties[n].schema, names);
      }
    case Ref(text) => PointsToIffSimple(text, names);
    case _ =>
  }
}
