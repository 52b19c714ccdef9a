/** The mutable router index of router.go, kept equal to the plain list of registrations. */
module Router {
  import opened Strings
  import opened Routes

  class Node {
    var children: map<string, Node>
    var paramChild: Node?
    var paramName: string
    var wildcardChild: Node?
    var wildcardName: string
    var route: Option<RouteEntry>

    constructor ()
      ensures Fields() == Links(map[], null, "", null, "", None)
    {
      children, paramChild, paramName := map[], null, "";
      wildcardChild, wildcardName, route := null, "", None;
    }

    ghost function Fields(): Links
      reads this
    {
      Links(children, paramChild, paramName, wildcardChild, wildcardName, route)
    }
  }

  // The fields of a node at one moment.
  datatype Links = Links(children: map<string, Node>, paramChild: Node?, paramName: string,
                         wildcardChild: Node?, wildcardName: string, route: Option<RouteEntry>)

  // What the index holds, place by place: the name of its last edge and perhaps an entry.
  datatype Shape = Shape(names: map<Key, string>, entries: map<Key, RouteEntry>) {
    function EntryAt(k: Key): Option<RouteEntry> {
      if k in entries then Some(entries[k]) else None
    }

    // Every place but a root lies below another place, and entries sit at places.
    ghost predicate Closed() {
      && (forall k :: k in entries ==> k in names)
      && (forall k, e :: Below(k, e) in names ==> k in names)
    }

    // A place keeps the name it was created with.
    function WithPlace(k: Key, name: string): Shape {
      if k in names then this else this.(names := names[k := name])
    }
  }

  // A link leads to the place it stands for and carries its name, or there is no such place.
  ghost predicate LinkFits(at: map<Key, Node>, shape: Shape, c: Key, child: Node?, name: string) {
    if c in at then child == at[c] && c in shape.names && name == shape.names[c] else child == null
  }

  // A node at `k` points to exactly the places one edge further.
  ghost predicate Fits(at: map<Key, Node>, shape: Shape, k: Key, n: Links) {
    && (forall s :: s in n.children ==> Below(k, Exactly(s)) in at && n.children[s] == at[Below(k, Exactly(s))])
    && (forall s :: Below(k, Exactly(s)) in at ==> s in n.children)
    && LinkFits(at, shape, Below(k, AnyPart), n.paramChild, n.paramName)
    && LinkFits(at, shape, Below(k, AnyRest), n.wildcardChild, n.wildcardName)
    && n.route == shape.EntryAt(k)
  }

  lemma OtherStillFits(at: map<Key, Node>, shape: Shape, j: Key, links: Links, c: Key, n: Node, name: string)
    requires Fits(at, shape, j, links) && c !in at && c !in shape.names && (c.Below? ==> c.up != j)
    ensures Fits(at[c := n], shape.WithPlace(c, name), j, links)
  {
  }

  lemma NewFits(at: map<Key, Node>, shape: Shape, c: Key, n: Node, name: string, links: Links)
    requires c !in at && c !in shape.names && shape.Closed() && (forall k :: k in at ==> k in shape.names)
    requires links == Links(map[], null, "", null, "", None)
    ensures Fits(at[c := n], shape.WithPlace(c, name), c, links)
  {
    forall e ensures Below(c, e) !in at[c := n] {
      assert Depth(Below(c, e)) == Depth(c) + 1;
    }
  }

  // The links of a node after a child along `seg` has been hung in.
  function Linked(links: Links, seg: Segment, n: Node): Links {
    match seg
    case Static(v) => links.(children := links.children[v := n])
    case Param(v) => links.(paramChild := n, paramName := v)
    case Wildcard(v) => links.(wildcardChild := n, wildcardName := v)
  }

  // The child of a node along `seg`.
  function LinkAlong(links: Links, seg: Segment): Node? {
    match seg
    case Static(v) => if v in links.children then links.children[v] else null
    case Param(_) => links.paramChild
    case Wildcard(_) => links.wildcardChild
  }

  lemma LinkAlongFits(at: map<Key, Node>, shape: Shape, k: Key, links: Links, seg: Segment)
    requires Fits(at, shape, k, links)
    ensures var c := Below(k, EdgeOf(seg)); LinkAlong(links, seg) == if c in at then at[c] else null
  {
  }

  lemma LinkedFits(at: map<Key, Node>, shape: Shape, k: Key, links: Links, seg: Segment, n: Node)
    requires Fits(at, shape, k, links) && Below(k, EdgeOf(seg)) !in at && Below(k, EdgeOf(seg)) !in shape.names && k in shape.names
    ensures Fits(at[Below(k, EdgeOf(seg)) := n], shape.WithPlace(Below(k, EdgeOf(seg)), seg.value), k, Linked(links, seg, n))
  {
    assert Depth(Below(k, EdgeOf(seg))) == Depth(k) + 1;
  }

  class Index {
    var methodRoots: map<string, Node>
    ghost var shape: Shape
    ghost var at: map<Key, Node>       // the node at each place
    ghost var place: map<Node, Key>    // and back
    ghost var regs: seq<Reg>           // every call of `Add` so far

    // The nodes form a tree with exactly one node per place, perhaps except for the links at `hole`.
    ghost predicate NodesBut(hole: Option<Key>)
      reads this, at.Values
    {
      && (forall k :: k in at <==> k in shape.names)
      && shape.Closed()
      && (forall k {:trigger at[k]} :: k in at ==> at[k] in place && place[at[k]] == k)
      && (forall k {:trigger at[k].Fields()} :: k in at && hole != Some(k) ==> Fits(at, shape, k, at[k].Fields()))
    }

    ghost predicate TreeOk()
      reads this, at.Values
    {
      && NodesBut(None)
      && (forall v :: v in methodRoots <==> Root(v) in at)
      && (forall v :: v in methodRoots ==> methodRoots[v] == at[Root(v)])
    }

    constructor ()
      ensures TreeOk() && regs == [] && shape == Shape(map[], map[])
    {
      methodRoots, regs, at, place, shape := map[], [], map[], map[], Shape(map[], map[]);
    }

    // Puts a fresh node at `c`; its parent, if any, already links to it.
    ghost method Place(c: Key, n: Node, name: string)
      requires NodesBut(if c.Below? then Some(c.up) else None)
      requires c !in at && n !in place && n.Fields() == Links(map[], null, "", null, "", None)
      requires c.Below? ==> c.up in at && Fits(at[c := n], shape.WithPlace(c, name), c.up, at[c.up].Fields())
      modifies this`shape, this`at, this`place
      ensures NodesBut(None)
      ensures at == old(at)[c := n] && shape == old(shape).WithPlace(c, name)
    {
      var at0, shape0 := at, shape;
      at := at[c := n];
      place := place[n := c];
      shape := shape.WithPlace(c, name);
      NewFits(at0, shape0, c, n, name, n.Fields());
      forall j | j in at ensures Fits(at, shape, j, at[j].Fields()) {
        if j != c && (c.Below? ==> j != c.up) {
          OtherStillFits(at0, shape0, j, at[j].Fields(), c, n, name);
        }
      }
    }

    method GetRoot(verb: string) returns (root: Node)
      requires TreeOk()
      modifies this`methodRoots, this`shape, this`at, this`place
      ensures TreeOk() && shape == old(shape).WithPlace(Root(verb), "")
      ensures Root(verb) in at && root == at[Root(verb)]
      ensures fresh(at.Values - old(at.Values))
    {
      if verb in methodRoots {
        return methodRoots[verb];
      }
      root := new Node();
      Place(Root(verb), root, "");
      methodRoots := methodRoots[verb := root];
    }

    // The links of `curr` when there is no child along the segment yet: hang a new node in.
    method Attach(curr: Node, seg: Segment) returns (next: Node)
      requires LinkAlong(curr.Fields(), seg) == null
      modifies curr
      ensures fresh(next) && next.Fields() == Links(map[], null, "", null, "", None)
      ensures curr.Fields() == Linked(old(curr.Fields()), seg, next)
    {
      next := new Node();
      match seg {
        case Static(v) => curr.children := curr.children[v := next];
        case Param(v) => curr.paramChild, curr.paramName := next, v;
        case Wildcard(v) => curr.wildcardChild, curr.wildcardName := next, v;
      }
    }

    method ChildAlong(curr: Node, seg: Segment) returns (next: Node?)
      ensures next == LinkAlong(curr.Fields(), seg)
    {
      match seg {
        case Static(v) => next := if v in curr.children then curr.children[v] else null;
        case Param(_) => next := curr.paramChild;
        case Wildcard(_) => next := curr.wildcardChild;
      }
    }

    // One step of `add`: the child of `curr` along the segment, created if missing.
    method Descend(curr: Node, seg: Segment, ghost k: Key) returns (next: Node)
      requires TreeOk() && k in at && at[k] == curr
      modifies this`shape, this`at, this`place, curr
      ensures TreeOk() && shape == old(shape).WithPlace(Below(k, EdgeOf(seg)), seg.value)
      ensures Below(k, EdgeOf(seg)) in at && next == at[Below(k, EdgeOf(seg))]
      ensures fresh(at.Values - old(at.Values))
    {
      ghost var links := curr.Fields();
      LinkAlongFits(at, shape, k, links, seg);
      var child := ChildAlong(curr, seg);
      if child != null {
        return child;
      }
      next := Attach(curr, seg);
      Hang(curr, seg, next, k, links);
    }

    // Records the place of a fresh child that has just been linked.
    ghost method Hang(curr: Node, seg: Segment, next: Node, k: Key, links: Links)
      requires NodesBut(Some(k)) && k in at && at[k] == curr && next !in place
      requires Fits(at, shape, k, links) && Below(k, EdgeOf(seg)) !in at
      requires curr.Fields() == Linked(links, seg, next) && next.Fields() == Links(map[], null, "", null, "", None)
      modifies this`shape, this`at, this`place
      ensures NodesBut(None)
      ensures at == old(at)[Below(k, EdgeOf(seg)) := next] && shape == old(shape).WithPlace(Below(k, EdgeOf(seg)), seg.value)
    {
      LinkedFits(at, shape, k, links, seg, next);
      Place(Below(k, EdgeOf(seg)), next, seg.value);
    }

    method SetRoute(curr: Node, entry: RouteEntry, ghost k: Key)
      requires TreeOk() && k in at && at[k] == curr
      modifies this`shape, curr`route
      ensures TreeOk() && shape == old(shape).(entries := old(shape).entries[k := entry])
    {
      ghost var shape0, links := shape, curr.Fields();
      assert Fits(at, shape, k, links);
      curr.route := Some(entry);
      shape := shape.(entries := shape.entries[k := entry]);
      forall j | j in at ensures Fits(at, shape, j, at[j].Fields()) {
        EntryFits(at, shape0, j, if j == k then links else at[j].Fields(), k, entry);
      }
    }

    // The nodes are an exact image of the calls on record.
    ghost predicate Image()
      reads this, at.Values
    {
      TreeOk() && Agrees(regs, shape)
    }

    ghost predicate Valid()
      reads this, at.Values
    {
      Image() && AllLast(regs)
    }

    // One turn of the loop: one more segment is on record.
    method StepDown(curr: Node, verb: string, segs: seq<Segment>, n: nat, ghost regs0: seq<Reg>) returns (next: Node)
      requires n < |segs| && TreeOk() && Agrees(regs0 + [Reg(verb, segs[..n], None)], shape)
      requires KeyAt(verb, segs, n) in at && curr == at[KeyAt(verb, segs, n)]
      modifies this`shape, this`at, this`place, curr
      ensures TreeOk() && Agrees(regs0 + [Reg(verb, segs[..n + 1], None)], shape)
      ensures KeyAt(verb, segs, n + 1) in at && next == at[KeyAt(verb, segs, n + 1)]
      ensures fresh(at.Values - old(at.Values))
    {
      ghost var before := shape;
      next := Descend(curr, segs[n], KeyAt(verb, segs, n));
      AgreesStep(regs0, before, verb, segs, n);
    }

    // The loop of `add`: walks or creates the nodes of the segments; n is how many it took.
    method WalkDown(root: Node, verb: string, segs: seq<Segment>, ghost regs0: seq<Reg>) returns (curr: Node, n: nat)
      requires TreeOk() && Agrees(regs0 + [Reg(verb, [], None)], shape) && Root(verb) in at && root == at[Root(verb)]
      modifies this`shape, this`at, this`place, at.Values
      ensures n == (if FirstInner(segs).Some? then FirstInner(segs).value + 1 else |segs|) && n <= |segs|
      ensures TreeOk() && Agrees(regs0 + [Reg(verb, segs[..n], None)], shape)
      ensures KeyAt(verb, segs, n) in at && curr == at[KeyAt(verb, segs, n)]
      ensures fresh(at.Values - old(at.Values))
    {
      curr := root;
      assert segs[..0] == [];
      n := 0;
      while n < |segs|
        invariant n <= |segs|
        invariant TreeOk() && Agrees(regs0 + [Reg(verb, segs[..n], None)], shape)
        invariant KeyAt(verb, segs, n) in at && curr == at[KeyAt(verb, segs, n)]
        invariant fresh(at.Values - old(at.Values))
        invariant FirstInner(segs) == FirstInnerFrom(segs, n)
      {
        curr := StepDown(curr, verb, segs, n, regs0);
        n := n + 1;
        if segs[n - 1].Wildcard? && n != |segs| {
          return;
        }
      }
    }

    /** Registers a route.  A wildcard before the last segment panics, after the nodes up to and
        including the wildcard have been created. */
    method Add(verb: string, path: string, handler: nat) returns (panicked: bool)
      requires Valid()
      modifies this, at.Values
      ensures Valid() && regs == old(regs) + [Registered(verb, path, handler)]
      ensures panicked <==> Registered(verb, path, handler).entry.None?
    {
      var root := GetRoot(verb);
      AgreesRoot(regs, old(shape), verb);
      var segs := ParseSegments(path);
      panicked := AddBelow(root, verb, segs, RouteEntry(handler, verb, path));
      RecordedWildcardsLast(verb, segs, RouteEntry(handler, verb, path));
    }

    method AddBelow(root: Node, verb: string, segs: seq<Segment>, entry: RouteEntry) returns (panicked: bool)
      requires TreeOk() && Agrees(regs + [Reg(verb, [], None)], shape) && Root(verb) in at && root == at[Root(verb)]
      modifies this`shape, this`at, this`place, this`regs, at.Values
      ensures Image() && regs == old(regs) + [Recorded(verb, segs, entry)]
      ensures panicked <==> FirstInner(segs).Some?
    {
      var curr, n := WalkDown(root, verb, segs, regs);
      panicked := FirstInner(segs).Some?;
      if panicked {
        regs := regs + [Reg(verb, segs[..n], None)];
      } else {
        assert segs[..n] == segs;
        Finish(curr, verb, segs, entry);
      }
    }

    method Finish(curr: Node, verb: string, ghost segs: seq<Segment>, entry: RouteEntry)
      requires TreeOk() && Agrees(regs + [Reg(verb, segs, None)], shape)
      requires KeyAt(verb, segs, |segs|) in at && curr == at[KeyAt(verb, segs, |segs|)]
      modifies this`shape, this`regs, curr`route
      ensures Image() && regs == old(regs) + [Reg(verb, segs, Some(entry))]
    {
      AgreesDone(regs, shape, verb, segs, entry);
      SetRoute(curr, entry, KeyAt(verb, segs, |segs|));
      regs := regs + [Reg(verb, segs, Some(entry))];
    }

    // What the registrations say about the places one edge below `k`, and about `k` itself.
    lemma Seen(k: Key, part: string)
      requires Valid() && k in at
      ensures var n := at[k];
              && (part in n.children <==> Present(regs, Below(k, Exactly(part))))
              && (part in n.children ==> Below(k, Exactly(part)) in at && n.children[part] == at[Below(k, Exactly(part))])
              && (n.paramChild != null <==> Present(regs, Below(k, AnyPart)))
              && (n.paramChild != null ==> Below(k, AnyPart) in at && n.paramChild == at[Below(k, AnyPart)]
                                           && FirstName(regs, Below(k, AnyPart)) == Some(n.paramName))
              && (n.wildcardChild != null <==> Present(regs, Below(k, AnyRest)))
              && (n.wildcardChild != null ==> Below(k, AnyRest) in at && n.wildcardChild == at[Below(k, AnyRest)]
                                              && FirstName(regs, Below(k, AnyRest)) == Some(n.wildcardName)
                                              && n.wildcardChild.route == LastEntry(regs, Below(k, AnyRest)))
              && n.route == LastEntry(regs, k)
    {
      assert Fits(at, shape, k, at[k].Fields());
      assert AgreesAt(regs, shape, k) && AgreesAt(regs, shape, Below(k, Exactly(part)));
      assert AgreesAt(regs, shape, Below(k, AnyPart)) && AgreesAt(regs, shape, Below(k, AnyRest));
      if Below(k, AnyRest) in at {
        assert Fits(at, shape, Below(k, AnyRest), at[Below(k, AnyRest)].Fields());
      }
    }

    /** Lookup returns exactly what the greedy walk over the registrations returns. */
    method Find(verb: string, path: string) returns (r: Match)
      requires Valid()
      ensures r == GreedyFind(regs, verb, path)
    {
      if verb !in methodRoots {
        assert AgreesAt(regs, shape, Root(verb));
        return Miss([]);
      }
      var curr := methodRoots[verb];
      ghost var k := Root(verb);
      var params: seq<RouteParam> := [];
      if path == "/" || path == "" {
        RootPath(path);
        Seen(Root(verb), "");
        assert AgreesAt(regs, shape, Root(verb));
        return if curr.route.None? then Miss(params) else Hit(curr.route.value, params);
      }
      var parts := SplitPath(path);
      assert parts[0..] == parts;
      assert AgreesAt(regs, shape, Root(verb));
      for i := 0 to |parts|
        invariant k in at && curr == at[k]
        invariant GreedyFind(regs, verb, path) == Walk(regs, k, parts[i..], params)
      {
        var part := parts[i];
        assert parts[i..][0] == part && parts[i..][1..] == parts[i + 1..];
        Seen(k, part);
        if part in curr.children {
          curr := curr.children[part];
          k := Below(k, Exactly(part));
        } else if curr.paramChild != null {
          params := params + [RouteParam(curr.paramName, part)];
          curr := curr.paramChild;
          k := Below(k, AnyPart);
        } else if curr.wildcardChild != null {
          params := params + [RouteParam(curr.wildcardName, Join(parts[i..]))];
          curr := curr.wildcardChild;
          return if curr.route.None? then Miss(params) else Hit(curr.route.value, params);
        } else {
          return Miss(params);
        }
      }
      Seen(k, "");
      return if curr.route.None? then Miss(params) else Hit(curr.route.value, params);
    }
  }

  // ---------------------------------------------------------------- the index and the list

  // The index holds what the list of registrations says.
  ghost predicate Agrees(regs: seq<Reg>, shape: Shape) {
    forall k {:trigger AgreesAt(regs, shape, k)} :: AgreesAt(regs, shape, k)
  }

  ghost predicate AgreesAt(regs: seq<Reg>, shape: Shape, k: Key) {
    && FirstName(regs, k) == (if k in shape.names then Some(shape.names[k]) else None)
    && LastEntry(regs, k) == shape.EntryAt(k)
  }

  lemma RootPath(path: string)
    requires path == "/" || path == ""
    ensures SplitPath(path) == []
  {
    if path == "/" {
      assert path[1..] == "";
      assert TrimSlashesLeft("") == "" && TrimSlashesRight("") == "";
    }
  }

  lemma AgreesRoot(regs: seq<Reg>, shape: Shape, verb: string)
    requires Agrees(regs, shape)
    ensures Agrees(regs + [Reg(verb, [], None)], shape.WithPlace(Root(verb), ""))
  {
    forall k ensures AgreesAt(regs + [Reg(verb, [], None)], shape.WithPlace(Root(verb), ""), k) {
      assert AgreesAt(regs, shape, k);
      AppendReg(regs, Reg(verb, [], None), k);
    }
  }

  // One more segment makes exactly one more place present.
  lemma ThroughStep(verb: string, segs: seq<Segment>, i: nat, k: Key)
    requires i < |segs|
    ensures Through(Reg(verb, segs[..i + 1], None), k) <==>
            Through(Reg(verb, segs[..i], None), k) || k == KeyAt(verb, segs, i + 1)
    ensures Through(Reg(verb, segs[..i], None), k) ==> NameIn(Reg(verb, segs[..i], None), k) == NameIn(Reg(verb, segs[..i + 1], None), k)
    ensures k == KeyAt(verb, segs, i + 1) ==> NameIn(Reg(verb, segs[..i + 1], None), k) == segs[i].value
  {
    var d := Depth(k);
    KeyDepth(verb, segs, i + 1);
    if d <= i {
      KeyPrefix(verb, segs, i, d);
      KeyPrefix(verb, segs, i + 1, d);
    } else if d == i + 1 {
      KeyPrefix(verb, segs, i + 1, d);
    }
  }

  lemma AgreesStep(regs: seq<Reg>, shape: Shape, verb: string, segs: seq<Segment>, i: nat)
    requires i < |segs| && Agrees(regs + [Reg(verb, segs[..i], None)], shape)
    ensures Agrees(regs + [Reg(verb, segs[..i + 1], None)],
                   shape.WithPlace(Below(KeyAt(verb, segs, i), EdgeOf(segs[i])), segs[i].value))
  {
    var shape' := shape.WithPlace(KeyAt(verb, segs, i + 1), segs[i].value);
    var regs' := regs + [Reg(verb, segs[..i + 1], None)];
    forall k ensures AgreesAt(regs', shape', k) {
      assert AgreesAt(regs + [Reg(verb, segs[..i], None)], shape, k);
      AppendReg(regs, Reg(verb, segs[..i], None), k);
      AppendReg(regs, Reg(verb, segs[..i + 1], None), k);
      ThroughStep(verb, segs, i, k);
    }
  }

  lemma AgreesDone(regs: seq<Reg>, shape: Shape, verb: string, segs: seq<Segment>, entry: RouteEntry)
    requires Agrees(regs + [Reg(verb, segs, None)], shape)
    ensures Agrees(regs + [Reg(verb, segs, Some(entry))],
                   shape.(entries := shape.entries[KeyAt(verb, segs, |segs|) := entry]))
  {
    var shape' := shape.(entries := shape.entries[KeyAt(verb, segs, |segs|) := entry]);
    forall k ensures AgreesAt(regs + [Reg(verb, segs, Some(entry))], shape', k) {
      assert AgreesAt(regs + [Reg(verb, segs, None)], shape, k);
      AppendReg(regs, Reg(verb, segs, None), k);
      AppendReg(regs, Reg(verb, segs, Some(entry)), k);
    }
  }

  lemma EntryFits(at: map<Key, Node>, shape: Shape, j: Key, links: Links, k: Key, entry: RouteEntry)
    requires Fits(at, shape, j, links)
    ensures var shape' := shape.(entries := shape.entries[k := entry]);
            Fits(at, shape', j, if j == k then links.(route := Some(entry)) else links)
  {
  }
}
