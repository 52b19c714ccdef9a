/** Paths, segments and the plain list of registrations that the router index has to agree with
    (route.go, router.go). */
module Routes {
  import opened Strings

  // ---------------------------------------------------------------- paths

  function TrimSlashesLeft(s: string): string {
    if s != [] && s[0] == '/' then TrimSlashesLeft(s[1..]) else s
  }

  function TrimSlashesRight(s: string): string {
    if s != [] && s[|s| - 1] == '/' then TrimSlashesRight(s[..|s| - 1]) else s
  }

  function TrimSlashes(s: string): string {
    TrimSlashesRight(TrimSlashesLeft(s))
  }

  // strings.Join(parts, "/")
  function Join(parts: seq<string>): string {
    if parts == [] then ""
    else if |parts| == 1 then parts[0]
    else parts[0] + "/" + Join(parts[1..])
  }

  function SplitPath(path: string): seq<string> {
    var clean := TrimSlashes(path);
    if clean == "" then [] else Split(clean, '/')
  }

  lemma {:induction false} JoinSplit(s: string)
    ensures Split(s, '/') != [] && Join(Split(s, '/')) == s
  {
    if s != [] {
      JoinSplit(s[1..]);
      var rest := Split(s[1..], '/');
      if s[0] == '/' {
        assert ([""] + rest)[1..] == rest;
      } else {
        var parts := [[s[0]] + rest[0]] + rest[1..];
        assert parts[1..] == rest[1..];
        assert Join(parts) == [s[0]] + Join(rest);
      }
    }
  }

  lemma SplitPathJoins(path: string)
    ensures Join(SplitPath(path)) == TrimSlashes(path)
  {
    JoinSplit(TrimSlashes(path));
  }

  // ---------------------------------------------------------------- segments

  datatype Segment = Static(value: string) | Param(value: string) | Wildcard(value: string)

  function SegmentOf(part: string): Segment {
    if |part| > 1 && part[0] == ':' then Param(part[1..])
    else if |part| > 1 && part[0] == '*' then Wildcard(part[1..])
    else Static(part)
  }

  function Segments(parts: seq<string>): seq<Segment> {
    seq(|parts|, i requires 0 <= i < |parts| => SegmentOf(parts[i]))
  }

  method ParseSegments(path: string) returns (segs: seq<Segment>)
    ensures segs == Segments(SplitPath(path))
  {
    var parts := SplitPath(path);
    segs := [];
    for i := 0 to |parts|
      invariant segs == Segments(parts)[..i]
    {
      var p := parts[i];
      if |p| > 1 && p[0] == ':' {
        segs := segs + [Param(p[1..])];
      } else if |p| > 1 && p[0] == '*' {
        segs := segs + [Wildcard(p[1..])];
      } else {
        segs := segs + [Static(p)];
      }
    }
  }

  // ---------------------------------------------------------------- edges and registrations

  datatype Edge = Exactly(part: string) | AnyPart | AnyRest

  function EdgeOf(seg: Segment): Edge {
    match seg
    case Static(v) => Exactly(v)
    case Param(_) => AnyPart
    case Wildcard(_) => AnyRest
  }

  datatype RouteEntry = RouteEntry(handler: nat, verb: string, path: string)

  // One call of `add`, up to the point where it stopped: an unfinished call has no entry.
  datatype Reg = Reg(verb: string, segs: seq<Segment>, entry: Option<RouteEntry>)

  // The first wildcard, from position i on, that is not the last segment.
  function FirstInnerFrom(segs: seq<Segment>, i: nat): Option<nat>
    requires i <= |segs|
    decreases |segs| - i
  {
    if i == |segs| then None
    else if segs[i].Wildcard? && i != |segs| - 1 then Some(i)
    else FirstInnerFrom(segs, i + 1)
  }

  function FirstInner(segs: seq<Segment>): Option<nat> {
    FirstInnerFrom(segs, 0)
  }

  // What a call of `add` leaves on record: all of the pattern and its entry, or, when a wildcard
  // is not last, the pattern up to that wildcard and no entry.
  function Recorded(verb: string, segs: seq<Segment>, entry: RouteEntry): Reg {
    match FirstInner(segs)
    case None => Reg(verb, segs, Some(entry))
    case Some(i) => if i < |segs| then Reg(verb, segs[..i + 1], None) else Reg(verb, segs, None)
  }

  function Registered(verb: string, path: string, handler: nat): Reg {
    Recorded(verb, Segments(SplitPath(path)), RouteEntry(handler, verb, path))
  }

  // A place in the index: a method and the edges leading there.
  datatype Key = Root(verb: string) | Below(up: Key, edge: Edge)

  function Depth(k: Key): nat {
    if k.Root? then 0 else 1 + Depth(k.up)
  }

  // The place the first n segments of a pattern lead to.
  function KeyAt(verb: string, segs: seq<Segment>, n: nat): Key
    requires n <= |segs|
  {
    if n == 0 then Root(verb) else Below(KeyAt(verb, segs, n - 1), EdgeOf(segs[n - 1]))
  }

  function KeyOf(r: Reg): Key {
    KeyAt(r.verb, r.segs, |r.segs|)
  }

  predicate Through(r: Reg, k: Key) {
    Depth(k) <= |r.segs| && KeyAt(r.verb, r.segs, Depth(k)) == k
  }

  // The name a registration passing through `k` gives to its last edge.
  function NameIn(r: Reg, k: Key): string
    requires Through(r, k)
  {
    if k.Root? then "" else r.segs[Depth(k) - 1].value
  }

  // The name given by the first registration passing through `k`.
  function FirstName(regs: seq<Reg>, k: Key): Option<string> {
    if regs == [] then None
    else match FirstName(regs[..|regs| - 1], k)
      case Some(name) => Some(name)
      case None =>
        var r := regs[|regs| - 1];
        if Through(r, k) then Some(NameIn(r, k)) else None
  }

  // Some registration passes through `k`.
  predicate Present(regs: seq<Reg>, k: Key) {
    FirstName(regs, k).Some?
  }

  // The entry of the last registration that ends at `k`.
  function LastEntry(regs: seq<Reg>, k: Key): Option<RouteEntry> {
    if regs == [] then None
    else
      var r := regs[|regs| - 1];
      if KeyOf(r) == k && r.entry.Some? then r.entry
      else LastEntry(regs[..|regs| - 1], k)
  }

  // ---------------------------------------------------------------- the greedy walk over the list

  datatype RouteParam = RouteParam(key: string, value: string)

  datatype Match = Hit(entry: RouteEntry, params: seq<RouteParam>) | Miss(params: seq<RouteParam>)

  function NameOr(name: Option<string>): string {
    if name.Some? then name.value else ""
  }

  function Land(regs: seq<Reg>, k: Key, params: seq<RouteParam>): Match {
    match LastEntry(regs, k)
    case None => Miss(params)
    case Some(e) => Hit(e, params)
  }

  // At each part a registered literal wins over a parameter and a parameter over a wildcard,
  // and the walk never goes back.
  function Walk(regs: seq<Reg>, k: Key, parts: seq<string>, params: seq<RouteParam>): Match
    decreases |parts|
  {
    if parts == [] then Land(regs, k, params)
    else if Present(regs, Below(k, Exactly(parts[0]))) then
      Walk(regs, Below(k, Exactly(parts[0])), parts[1..], params)
    else if Present(regs, Below(k, AnyPart)) then
      Walk(regs, Below(k, AnyPart), parts[1..],
           params + [RouteParam(NameOr(FirstName(regs, Below(k, AnyPart))), parts[0])])
    else if Present(regs, Below(k, AnyRest)) then
      Land(regs, Below(k, AnyRest), params + [RouteParam(NameOr(FirstName(regs, Below(k, AnyRest))), Join(parts))])
    else Miss(params)
  }

  function GreedyFind(regs: seq<Reg>, verb: string, path: string): Match {
    if !Present(regs, Root(verb)) then Miss([])
    else Walk(regs, Root(verb), SplitPath(path), [])
  }

  // ---------------------------------------------------------------- facts about the list

  lemma AppendReg(regs: seq<Reg>, r: Reg, k: Key)
    ensures FirstName(regs + [r], k) ==
            if Present(regs, k) then FirstName(regs, k) else if Through(r, k) then Some(NameIn(r, k)) else None
    ensures LastEntry(regs + [r], k) == if KeyOf(r) == k && r.entry.Some? then r.entry else LastEntry(regs, k)
  {
    assert (regs + [r])[..|regs|] == regs;
  }

  lemma {:induction false} KeyDepth(verb: string, segs: seq<Segment>, n: nat)
    requires n <= |segs|
    ensures Depth(KeyAt(verb, segs, n)) == n
  {
    if n > 0 {
      KeyDepth(verb, segs, n - 1);
    }
  }

  lemma {:induction false} KeyPrefix(verb: string, segs: seq<Segment>, m: nat, n: nat)
    requires n <= m <= |segs|
    ensures KeyAt(verb, segs[..m], n) == KeyAt(verb, segs, n)
  {
    if n > 0 {
      KeyPrefix(verb, segs, m, n - 1);
    }
  }

  // ---------------------------------------------------------------- wildcards come last

  predicate WildcardsLast(segs: seq<Segment>) {
    forall i :: 0 <= i < |segs| - 1 ==> !segs[i].Wildcard?
  }

  predicate AllLast(regs: seq<Reg>) {
    forall i :: 0 <= i < |regs| ==> WildcardsLast(regs[i].segs)
  }

  lemma {:induction false} FirstInnerMeans(segs: seq<Segment>, i: nat)
    requires i <= |segs|
    ensures match FirstInnerFrom(segs, i)
            case None => forall j :: i <= j < |segs| - 1 ==> !segs[j].Wildcard?
            case Some(w) => i <= w < |segs| - 1 && segs[w].Wildcard? && forall j :: i <= j < w ==> !segs[j].Wildcard?
    decreases |segs| - i
  {
    if i < |segs| && !(segs[i].Wildcard? && i != |segs| - 1) {
      FirstInnerMeans(segs, i + 1);
    }
  }

  lemma {:induction false} RecordedWildcardsLast(verb: string, segs: seq<Segment>, entry: RouteEntry)
    ensures WildcardsLast(Recorded(verb, segs, entry).segs)
  {
    FirstInnerMeans(segs, 0);
  }
}
