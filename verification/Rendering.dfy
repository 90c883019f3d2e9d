/** Building a fresh document tree from a vnode. */
module Rendering {
  import opened Prelude
  import opened Dom
  import opened VirtualTree
  import opened Reconciler

  // ---------- Lists that grow at the end ----------

  lemma PropsStep(props: seq<Prop>, i: nat)
    requires i < |props|
    ensures PropMap(props[..i + 1]) == PropMap(props[..i])[props[i].key := props[i].value]
    ensures Attributes(props[..i + 1]) ==
      match AttributeFor(props[i])
      case None => Attributes(props[..i])
      case Some(a) => Attributes(props[..i])[a.0 := a.1]
  {
    assert props[..i + 1][..i] == props[..i];
  }

  lemma {:induction false} PropMapKeys(props: seq<Prop>)
    ensures forall k :: k in PropMap(props) ==> exists i :: 0 <= i < |props| && props[i].key == k
  {
    if props == [] {
    } else {
      var n := |props| - 1;
      PropMapKeys(props[..n]);
      forall k | k in PropMap(props[..n]) ensures exists i :: 0 <= i < |props| && props[i].key == k {
        var i :| 0 <= i < n && props[..n][i].key == k;
        assert props[i].key == k;
      }
    }
  }

  lemma HandlersStep(m: Props, key: string, value: PropValue)
    requires key !in m
    ensures Handlers(m[key := value]) ==
      Handlers(m) + if IsListener(key, value) then {(EventName(key), value.f)} else {}
  {
    var after := m[key := value];
    forall h | h in Handlers(m) ensures h in Handlers(after) {
      var k :| k in m && IsListener(k, m[k]) && h == (EventName(k), m[k].f);
      assert k in after && after[k] == m[k];
    }
    if IsListener(key, value) { assert key in after && after[key] == value; }
  }

  method SetProps(el: DomNode, props: seq<Prop>, refs: RefTable)
    requires DistinctProps(props)
    requires el.attributes == map[] && el.listeners == {}
    modifies el`vprops, el`attributes, el`listeners, refs`current
    ensures el.vprops == PropMap(props) && el.attributes == Attributes(props)
    ensures el.listeners == Handlers(el.vprops) && Listens(el.listeners, el.vprops)
    ensures refs.current ==
      if HasRef(el.vprops) then old(refs.current)[el.vprops["ref"].id := el] else old(refs.current)
  {
    hide AttributeFor, AsksFor;
    var i := 0;
    while i < |props|
      invariant 0 <= i <= |props|
      invariant el.attributes == Attributes(props[..i])
      invariant el.listeners == Handlers(PropMap(props[..i]))
      invariant var m := PropMap(props[..i]);
        refs.current == if HasRef(m) then old(refs.current)[m["ref"].id := el] else old(refs.current)
    {
      var p := props[i];
      PropsStep(props, i);
      PropMapKeys(props[..i]);
      HandlersStep(PropMap(props[..i]), p.key, p.value);
      match AttributeFor(p) {
        case None =>
        case Some(a) => el.attributes := el.attributes[a.0 := a.1];
      }
      if p.key == "ref" && p.value.RefCell? { refs.current := refs.current[p.value.id := el]; }
      if IsListener(p.key, p.value) { el.listeners := el.listeners + {(EventName(p.key), p.value.f)}; }
      i := i + 1;
    }
    assert props[..|props|] == props;
    el.vprops := PropMap(props);
    HandlersMean(el.vprops);
  }

  // ---------- Appending ----------

  /** The children `el` has so far. */
  ghost predicate Grown(el: DomNode, done: seq<Shape>)
    reads el, NodesOf(done)
  {
    el.childNodes == Roots(done) && forall k :: k in done ==> Hung(k, el)
  }

  /** A fragment stands for its children. */
  ghost function Flat(s: Shape): seq<Shape> {
    if s.node.kind.FragmentKind? then s.kids else [s]
  }

  method AppendOne(el: DomNode, child: DomNode, ghost done: seq<Shape>, ghost s: Shape)
    requires Grown(el, done) && s.node == child && Linked(s) && child.parent != el
    requires Separate(s) && el !in NodesOf(done) && el !in Nodes(s) && NodesOf(done) !! Nodes(s)
    requires child.parent != null ==> child.parent !in NodesOf(done) && child.parent !in Nodes(s)
    modifies el`childNodes, child`parent, Just(child.parent)`childNodes
    ensures Grown(el, done + [s])
    ensures old(child.parent) != null ==> old(child.parent).childNodes == Without(old(child.parent.childNodes), child)
  {
    hide Linked, Nodes, NodesOf, Without;
    ghost var before := FootprintOf(done);
    ghost var made := Footprint(s);
    el.AppendChild(child);
    forall k | k in done + [s] ensures Hung(k, el) {
      assert k in done || k == s;
    }
  }

  /** Node sets of the first `j` children of a fragment and of the next one. */
  lemma PrefixApart(done: seq<Shape>, s: Shape, j: nat)
    requires Separate(s) && NodesOf(done) !! Nodes(s) && j < |s.kids|
    ensures NodesOf(done + s.kids[..j]) <= NodesOf(done) + NodesOf(s.kids)
    ensures NodesOf(done + s.kids[..j]) !! Nodes(s.kids[j])
    ensures Nodes(s.kids[j]) <= NodesOf(s.kids) && Separate(s.kids[j]) && s.node !in NodesOf(s.kids)
    ensures forall m :: 0 <= m < |s.kids| && m != j ==>
      Nodes(s.kids[m]) !! Nodes(s.kids[j]) && s.node !in Nodes(s.kids[m])
  {
    hide Nodes, NodesOf;
    assert forall m :: 0 <= m < |s.kids| ==> s.kids[m] in s.kids;
    forall k | k in done + s.kids[..j]
      ensures Nodes(k) !! Nodes(s.kids[j]) && Nodes(k) <= NodesOf(done) + NodesOf(s.kids)
    {
      if k !in done {
        var m :| 0 <= m < j && s.kids[m] == k;
      }
    }
    NodesOfBound(done + s.kids[..j], NodesOf(done) + NodesOf(s.kids));
    KidsApart(done + s.kids[..j], Nodes(s.kids[j]));
  }

  lemma KidsApart(shapes: seq<Shape>, other: set<DomNode>)
    requires forall k :: k in shapes ==> Nodes(k) !! other
    ensures NodesOf(shapes) !! other
  {
    hide Nodes;
  }

  method AppendKid(el: DomNode, child: DomNode, kid: DomNode, ghost done: seq<Shape>, ghost s: Shape, ghost j: nat)
    requires s.node == child && Separate(s) && el !in NodesOf(done) && el !in Nodes(s) && NodesOf(done) !! Nodes(s)
    requires j < |s.kids| && kid == s.kids[j].node
    requires Grown(el, done + s.kids[..j])
    requires forall m :: j <= m < |s.kids| ==> Hung(s.kids[m], child)
    modifies el`childNodes, child`childNodes, kid`parent
    ensures Grown(el, done + s.kids[..j + 1])
    ensures forall m :: j < m < |s.kids| ==> Hung(s.kids[m], child)
    ensures child.childNodes == Without(old(child.childNodes), kid)
  {
    hide Nodes, NodesOf, Grown, Separate, Linked, Without;
    PrefixApart(done, s, j);
    ghost var made := Footprint(s);
    assert Linked(s.kids[j]);
    AppendOne(el, kid, done + s.kids[..j], s.kids[j]);
    assert done + s.kids[..j] + [s.kids[j]] == done + s.kids[..j + 1];
  }

  method AppendFragment(el: DomNode, child: DomNode, ghost done: seq<Shape>, ghost s: Shape)
    requires Grown(el, done) && s.node == child && Linked(s)
    requires Separate(s) && el !in NodesOf(done) && el !in Nodes(s) && NodesOf(done) !! Nodes(s)
    modifies el`childNodes, child`childNodes, Nodes(s)`parent
    ensures Grown(el, done + s.kids) && child.childNodes == []
  {
    hide Nodes, NodesOf, Grown, Separate, Linked, Hung, Without;
    var kids := child.childNodes;
    OpenLinked(s);
    assert done + s.kids[..0] == done;
    var j := 0;
    while j < |kids|
      invariant 0 <= j <= |kids|
      invariant Grown(el, done + s.kids[..j]) && child.childNodes == kids[j..]
      invariant forall m :: j <= m < |s.kids| ==> Hung(s.kids[m], child)
    {
      assert s.kids[j] in s.kids && s.kids[j].node in Nodes(s.kids[j]);
      FirstTaken(kids, j);
      AppendKid(el, child, kids[j], done, s, j);
      j := j + 1;
    }
    assert s.kids[..j] == s.kids;
  }

  lemma FirstTaken(nodes: seq<DomNode>, j: nat)
    requires j < |nodes|
    ensures Without(nodes[j..], nodes[j]) == nodes[j + 1..]
  {
    hide Without;
    WithoutFirst([], nodes[j], nodes[j + 1..]);
    assert nodes[j..] == [] + ([nodes[j]] + nodes[j + 1..]) && [] + nodes[j + 1..] == nodes[j + 1..];
  }

  lemma OpenLinked(s: Shape)
    requires Linked(s)
    ensures s.node.childNodes == Roots(s.kids)
    ensures forall m :: 0 <= m < |s.kids| ==> Hung(s.kids[m], s.node)
  {
    assert forall m :: 0 <= m < |s.kids| ==> s.kids[m] in s.kids;
  }

  method Append(el: DomNode, child: DomNode, ghost done: seq<Shape>, ghost s: Shape)
    requires Grown(el, done) && s.node == child && Linked(s) && child.parent == null
    requires Separate(s) && el !in NodesOf(done) && el !in Nodes(s) && NodesOf(done) !! Nodes(s)
    modifies el`childNodes, child`childNodes, Nodes(s)`parent
    ensures Grown(el, done + Flat(s))
  {
    hide Nodes, NodesOf, Grown, Linked;
    if child.kind.FragmentKind? {
      AppendFragment(el, child, done, s);
    } else {
      AppendOne(el, child, done, s);
    }
  }

  // ---------- toDom ----------

  /** Ref objects in use below come from the given uses. */
  ghost predicate RefsFrom(nodes: set<DomNode>, uses: multiset<nat>)
    reads nodes`vprops
  {
    forall n :: n in nodes && !n.kind.TextKind? && HasRef(n.vprops) ==> n.vprops["ref"].id in uses
  }

  /** Only cells of ref objects in `uses` have changed. */
  ghost predicate OtherCellsKept(before: map<nat, DomNode>, after: map<nat, DomNode>, uses: multiset<nat>) {
    forall id :: id in before && id !in uses ==> id in after && after[id] == before[id]
  }

  /** What a list of fresh subtrees shows, listens to and is referred to by. */
  ghost predicate Content(shapes: seq<Shape>, trees: seq<Tree>, uses: multiset<nat>, cells: Cells)
    reads NodesOf(shapes)`vprops, NodesOf(shapes)`attributes, NodesOf(shapes)`nodeValue, NodesOf(shapes)`listeners
  {
    && ViewAll(shapes) == trees
    && Wired(NodesOf(shapes))
    && RefsHeld(NodesOf(shapes), cells)
    && RefsFrom(NodesOf(shapes), uses)
  }

  /** What `toDom` promises about the tree it made. */
  ghost predicate Made(s: Shape, v: VNode, cells: Cells)
    reads Nodes(s)
  {
    && Separate(s) && Linked(s)
    && (s.node.kind.FragmentKind? <==> IsGroup(v))
    && (FlatNodes(s); Content(Flat(s), Expected(v), Uses(v), cells))
  }

  lemma FlatNodes(s: Shape)
    ensures NodesOf(Flat(s)) <= Nodes(s)
  {
    hide Nodes, NodesOf;
    NodesOfBound(Flat(s), Nodes(s));
  }

  lemma {:induction false} ViewAllJoins(a: seq<Shape>, b: seq<Shape>)
    ensures ViewAll(a + b) == ViewAll(a) + ViewAll(b)
  {
    hide View;
  }

  lemma NodesOfJoin(a: seq<Shape>, b: seq<Shape>)
    ensures NodesOf(a + b) == NodesOf(a) + NodesOf(b)
  {
    hide Nodes, NodesOf;
    assert forall k :: k in a + b <==> k in a || k in b;
    NodesOfBound(a + b, NodesOf(a) + NodesOf(b));
    NodesOfBound(a, NodesOf(a + b));
    NodesOfBound(b, NodesOf(a + b));
  }

  lemma ContentJoins(a: seq<Shape>, b: seq<Shape>, ta: seq<Tree>, tb: seq<Tree>, ua: multiset<nat>, ub: multiset<nat>,
                     cells: Cells)
    requires Content(a, ta, ua, cells) && Content(b, tb, ub, cells)
    ensures Content(a + b, ta + tb, ua + ub, cells)
  {
    hide RefHeld, Nodes, NodesOf;
    ViewAllJoins(a, b);
    NodesOfJoin(a, b);
  }

  /** Making another subtree does not disturb the refs of the earlier ones. */
  lemma ContentStays(shapes: seq<Shape>, trees: seq<Tree>, uses: multiset<nat>, before: Cells, after: Cells,
                     more: multiset<nat>)
    requires Content(shapes, trees, uses, before) && before.once == after.once
    requires OtherCellsKept(before.at, after.at, more)
    requires forall id :: id in before.once ==> (uses + more)[id] <= 1
    ensures Content(shapes, trees, uses, after)
  {
    hide Nodes, NodesOf, ViewAll;
  }

  lemma JoinSeparate(done: seq<Shape>, s: Shape)
    requires AllSeparate(done) && Separate(s) && NodesOf(done) !! Nodes(s)
    ensures AllSeparate(done + Flat(s))
  {
    hide Nodes, NodesOf;
    FlatNodes(s);
    var all := done + Flat(s);
    forall i, j | 0 <= i < j < |all| ensures Nodes(all[i]) !! Nodes(all[j]) {
      assert i < |done| ==> all[i] in done;
      assert j >= |done| ==> all[j] in Flat(s);
    }
  }

  lemma MadeText(s: Shape, v: VNode, text: string, cells: Cells)
    requires s.kids == [] && s.node.kind == TextKind && s.node.nodeValue == text
    requires v == VText(text) || (v == VEmpty && text == "")
    requires s.node.childNodes == [] && s.node.listeners == {} && s.node.vprops == map[]
    ensures Made(s, v, cells)
  {
    hide Nodes, NodesOf;
    LeafNodes(s);
    assert Handlers(map[]) == {};
    assert ViewAll([s]) == [View(s)] && ViewAll(s.kids) == [];
    assert Flat(s) == [s];
    assert Separate(s);
    assert Linked(s);
    assert ViewAll(Flat(s)) == Expected(v);
    assert Wired(NodesOf(Flat(s)));
    assert RefsHeld(NodesOf(Flat(s)), cells);
    assert RefsFrom(NodesOf(Flat(s)), Uses(v));
  }

  lemma LeafNodes(s: Shape)
    requires s.kids == []
    ensures NodesOf(s.kids) == {} && Nodes(s) == {s.node} && NodesOf([s]) == {s.node}
  {
    NodesOfBound([], {});
    NodesOfBound([s], {s.node});
  }

  /** The children made so far and appended to `el`. */
  ghost predicate Building(el: DomNode, shapes: seq<Shape>, trees: seq<Tree>, uses: multiset<nat>, cells: Cells)
    reads el, NodesOf(shapes)
  {
    Grown(el, shapes) && el !in NodesOf(shapes) && AllSeparate(shapes) && Content(shapes, trees, uses, cells)
  }

  method AppendVNode(el: DomNode, v: VNode, refs: RefTable, ghost done: seq<Shape>, ghost trees: seq<Tree>,
                     ghost uses: multiset<nat>)
    returns (ghost shapes: seq<Shape>)
    requires WellFormed(v) && forall id :: id in refs.once ==> (uses + Uses(v))[id] <= 1
    requires Building(el, done, trees, uses, refs.State())
    modifies el`childNodes, refs`current
    ensures Building(el, shapes, trees + Expected(v), uses + Uses(v), refs.State())
    ensures forall n :: n in NodesOf(shapes) ==> n in NodesOf(done) || fresh(n)
    ensures OtherCellsKept(old(refs.current), refs.current, Uses(v))
    decreases v, 2
  {
    hide Nodes, NodesOf, Content, Grown, Linked, Separate, AllSeparate;
    ghost var earlier := FootprintOf(done);
    ghost var before := refs.State();
    var child, s := ToDom(v, refs);
    FlatNodes(s);
    ghost var made := FootprintOf(Flat(s));
    ContentStays(done, trees, uses, before, refs.State(), Uses(v));
    Append(el, child, done, s);
    shapes := done + Flat(s);
    ContentJoins(done, Flat(s), trees, Expected(v), uses, Uses(v), refs.State());
    JoinSeparate(done, s);
    NodesOfJoin(done, Flat(s));
  }

  lemma VNodesStep(kids: seq<VNode>, i: nat)
    requires i < |kids|
    ensures ExpectedAll(kids[..i + 1]) == ExpectedAll(kids[..i]) + Expected(kids[i])
    ensures UsesAll(kids[..i + 1]) == UsesAll(kids[..i]) + Uses(kids[i])
  {
    assert kids[..i + 1][..i] == kids[..i];
  }

  lemma {:induction false} UsesPrefix(kids: seq<VNode>, i: nat)
    requires i <= |kids|
    ensures UsesAll(kids[..i]) <= UsesAll(kids)
    decreases |kids| - i
  {
    if i == |kids| {
      assert kids[..i] == kids;
    } else {
      VNodesStep(kids, i);
      UsesPrefix(kids, i + 1);
    }
  }

  lemma NothingMade(el: DomNode, cells: Cells)
    requires el.childNodes == []
    ensures NodesOf([]) == {} && Building(el, [], ExpectedAll([]), UsesAll([]), cells)
  {
    NodesOfBound([], {});
  }

  lemma CellsKeptChain(a: map<nat, DomNode>, b: map<nat, DomNode>, c: map<nat, DomNode>, first: multiset<nat>,
                       second: multiset<nat>)
    requires OtherCellsKept(a, b, first) && OtherCellsKept(b, c, second)
    ensures OtherCellsKept(a, c, first + second)
  {
  }

  /** One turn of the loop over the children. */
  method AppendKidAt(el: DomNode, kids: seq<VNode>, i: nat, refs: RefTable, ghost done: seq<Shape>,
                     ghost start: map<nat, DomNode>)
    returns (ghost shapes: seq<Shape>)
    requires i < |kids| && WellFormed(kids[i]) && forall id :: id in refs.once ==> UsesAll(kids)[id] <= 1
    requires Building(el, done, ExpectedAll(kids[..i]), UsesAll(kids[..i]), refs.State())
    requires OtherCellsKept(start, refs.current, UsesAll(kids[..i]))
    modifies el`childNodes, refs`current
    ensures Building(el, shapes, ExpectedAll(kids[..i + 1]), UsesAll(kids[..i + 1]), refs.State())
    ensures forall n :: n in NodesOf(shapes) ==> n in NodesOf(done) || fresh(n)
    ensures OtherCellsKept(start, refs.current, UsesAll(kids[..i + 1]))
    decreases kids, 0
  {
    hide Nodes, NodesOf, Building, WellFormed, Uses, Expected, OtherCellsKept;
    VNodesStep(kids, i);
    UsesPrefix(kids, i + 1);
    ghost var before := refs.current;
    shapes := AppendVNode(el, kids[i], refs, done, ExpectedAll(kids[..i]), UsesAll(kids[..i]));
    CellsKeptChain(start, before, refs.current, UsesAll(kids[..i]), Uses(kids[i]));
  }

  method AppendAll(el: DomNode, kids: seq<VNode>, refs: RefTable) returns (ghost shapes: seq<Shape>)
    requires el.childNodes == []
    requires (forall k :: k in kids ==> WellFormed(k)) && forall id :: id in refs.once ==> UsesAll(kids)[id] <= 1
    modifies el`childNodes, refs`current
    ensures Building(el, shapes, ExpectedAll(kids), UsesAll(kids), refs.State()) && fresh(NodesOf(shapes))
    ensures OtherCellsKept(old(refs.current), refs.current, UsesAll(kids))
    decreases kids, 1
  {
    hide Nodes, NodesOf, Building, WellFormed, UsesAll, ExpectedAll, OtherCellsKept, Linked, Content;
    shapes := [];
    assert kids[..0] == [];
    NothingMade(el, refs.State());
    NothingChanged(refs.current, UsesAll(kids[..0]));
    var i := 0;
    while i < |kids|
      invariant 0 <= i <= |kids|
      invariant Building(el, shapes, ExpectedAll(kids[..i]), UsesAll(kids[..i]), refs.State())
      invariant forall n :: n in NodesOf(shapes) ==> fresh(n)
      invariant OtherCellsKept(old(refs.current), refs.current, UsesAll(kids[..i]))
    {
      shapes := AppendKidAt(el, kids, i, refs, shapes, old(refs.current));
      i := i + 1;
    }
    assert kids[..i] == kids;
  }

  lemma NothingChanged(cells: map<nat, DomNode>, uses: multiset<nat>)
    ensures OtherCellsKept(cells, cells, uses)
  {
  }

  method GroupToDom(v: VNode, refs: RefTable) returns (dom: DomNode, ghost s: Shape)
    requires v.VGroup? && WellFormed(v) && forall id :: id in refs.once ==> Uses(v)[id] <= 1
    modifies refs`current
    ensures s.node == dom && dom.parent == null && fresh(Nodes(s))
    ensures Made(s, v, refs.State())
    ensures OtherCellsKept(old(refs.current), refs.current, Uses(v))
    decreases v, 0
  {
    hide NodesOf, AllSeparate, Content;
    dom := new DomNode(FragmentKind, "");
    ghost var shapes := AppendAll(dom, v.kids, refs);
    s := Shape(dom, shapes);
  }

  /** An element whose own props are set and whose children are appended. */
  lemma MadeElement(s: Shape, v: VNode, cells: Cells)
    requires v.VElement? && s.node.kind == KindOf(v.tag)
    requires s.node.attributes == Attributes(v.props) && s.node.vprops == PropMap(v.props)
    requires s.node.listeners == Handlers(s.node.vprops)
    requires Building(s.node, s.kids, ExpectedAll(v.kids), UsesAll(v.kids), cells)
    requires RefHeld(s.node, cells)
    ensures Made(s, v, cells)
  {
    hide Handlers, Attributes, PropMap, RefHeld, Nodes, NodesOf;
    assert Flat(s) == [s];
    assert NodesOf([s]) == Nodes(s) by { NodesOfBound([s], Nodes(s)); }
    assert Nodes(s) == {s.node} + NodesOf(s.kids) by { RootAndBelow(s); }
    assert ViewAll([s]) == [View(s)];
  }

  lemma RootAndBelow(s: Shape)
    ensures Nodes(s) == {s.node} + NodesOf(s.kids)
  {
    hide NodesOf;
  }

  lemma MadeComponent(s: Shape, v: VNode, cells: Cells)
    requires v.VComponent? && Made(s, v.rendered, cells)
    ensures Made(s, v, cells)
  {
    hide Content, Separate, Linked;
  }

  method ElementToDom(v: VNode, refs: RefTable) returns (dom: DomNode, ghost s: Shape)
    requires v.VElement? && WellFormed(v) && forall id :: id in refs.once ==> Uses(v)[id] <= 1
    modifies refs`current
    ensures s.node == dom && dom.parent == null && fresh(Nodes(s))
    ensures Made(s, v, refs.State())
    ensures OtherCellsKept(old(refs.current), refs.current, Uses(v))
    decreases v, 0
  {
    hide NodesOf, Building, Made, Uses, UsesAll, OtherCellsKept, Attributes, PropMap, Handlers, WellFormed;
    ElementUses(v, refs.once);
    ElementParts(v);
    dom := new DomNode(KindOf(v.tag), "");
    SetProps(dom, v.props, refs);
    ghost var middle := refs.current;
    OwnCellKept(v, old(refs.current), middle, dom);
    ghost var shapes := AppendAll(dom, v.kids, refs);
    s := Shape(dom, shapes);
    OwnRefHeld(v, dom, old(refs.current), middle, refs.State());
    CellsKeptChain(old(refs.current), middle, refs.current, OwnUses(v), UsesAll(v.kids));
    MadeElement(s, v, refs.State());
  }

  /** The ref object an element itself uses. */
  function OwnUses(v: VNode): multiset<nat>
    requires v.VElement?
  {
    if HasRef(PropMap(v.props)) then multiset{PropMap(v.props)["ref"].id} else multiset{}
  }

  lemma ElementUses(v: VNode, once: set<nat>)
    requires v.VElement? && forall id :: id in once ==> Uses(v)[id] <= 1
    ensures Uses(v) == OwnUses(v) + UsesAll(v.kids)
    ensures forall id :: id in once ==> UsesAll(v.kids)[id] <= 1 && (id in OwnUses(v) ==> id !in UsesAll(v.kids))
  {
    hide UsesAll, PropMap;
  }

  lemma ElementParts(v: VNode)
    requires v.VElement? && WellFormed(v)
    ensures DistinctProps(v.props) && forall k :: k in v.kids ==> WellFormed(k)
  {
  }

  lemma OwnCellKept(v: VNode, before: map<nat, DomNode>, after: map<nat, DomNode>, dom: DomNode)
    requires v.VElement?
    requires after == if HasRef(PropMap(v.props)) then before[PropMap(v.props)["ref"].id := dom] else before
    ensures OtherCellsKept(before, after, OwnUses(v))
  {
    hide PropMap;
  }

  lemma OwnRefHeld(v: VNode, dom: DomNode, before: map<nat, DomNode>, middle: map<nat, DomNode>, cells: Cells)
    requires v.VElement? && dom.vprops == PropMap(v.props) && OtherCellsKept(middle, cells.at, UsesAll(v.kids))
    requires middle == if HasRef(dom.vprops) then before[dom.vprops["ref"].id := dom] else before
    requires forall id :: id in cells.once ==> (id in OwnUses(v) ==> id !in UsesAll(v.kids))
    ensures RefHeld(dom, cells)
  {
    hide PropMap, UsesAll;
  }

  method ToDom(v: VNode, refs: RefTable) returns (dom: DomNode, ghost s: Shape)
    requires WellFormed(v)
    requires forall id :: id in refs.once ==> Uses(v)[id] <= 1
    modifies refs`current
    ensures s.node == dom && dom.parent == null && fresh(Nodes(s))
    ensures Made(s, v, refs.State())
    ensures OtherCellsKept(old(refs.current), refs.current, Uses(v))
    decreases v, 1
  {
    hide Made, Nodes, Uses, HasRef;
    match v {
      case VEmpty =>
        dom, s := TextToDom(v, "", refs);
      case VText(text) =>
        dom, s := TextToDom(v, text, refs);
      case VGroup(kids) =>
        dom, s := GroupToDom(v, refs);
      case VElement(tag, props, kids) =>
        dom, s := ElementToDom(v, refs);
      case VComponent(_, _, _, rendered) =>
        assert Uses(v) == Uses(rendered) by { ComponentUses(v); }
        dom, s := ToDom(rendered, refs);
        MadeComponent(s, v, refs.State());
    }
  }

  lemma ComponentUses(v: VNode)
    requires v.VComponent?
    ensures Uses(v) == Uses(v.rendered)
  {
  }

  method TextToDom(v: VNode, text: string, refs: RefTable) returns (dom: DomNode, ghost s: Shape)
    requires v == VText(text) || (v == VEmpty && text == "")
    ensures s.node == dom && dom.parent == null && fresh(Nodes(s))
    ensures Made(s, v, refs.State())
  {
    hide Made, Nodes, NodesOf;
    dom := new DomNode(TextKind, text);
    s := Shape(dom, []);
    MadeText(s, v, text, refs.State());
    LeafNodes(s);
  }
}
