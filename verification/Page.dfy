/** One mounted root: a container whose children are re-rendered in place. */
module Page {
  import opened Dom
  import opened VirtualTree
  import opened Reconciler
  import opened Rendering
  import opened KeptNodes

  class Root {
    const container: DomNode
    const refs: RefTable
    ghost var shapes: seq<Shape>

    /** The children of the container are a proper tree, and every element has exactly the listeners its
        current props ask for. */
    ghost predicate Standing()
      reads this, container, NodesOf(shapes)
    {
      && container.childNodes == Roots(shapes)
      && (forall k :: k in shapes ==> Hung(k, container))
      && AllSeparate(shapes) && container !in NodesOf(shapes)
      && Wired(NodesOf(shapes))
    }

    /** Moreover every ref object used once holds its element in the live tree. */
    ghost predicate Valid()
      reads this, container, refs, NodesOf(shapes)
    {
      Standing() && RefsHeld(NodesOf(shapes), refs.State())
    }

    constructor (container: DomNode)
      requires container.childNodes == []
      ensures Valid() && shapes == [] && this.container == container && fresh(refs)
    {
      this.container := container;
      refs := new RefTable();
      shapes := [];
      new;
      EmptyNodes();
    }

    /** Morphs the container's children into a freshly made tree. */
    method Commit(dom: DomNode, v: VNode, ghost s: Shape)
      requires Standing() && Made(s, v, refs.State())
      requires dom == s.node && dom.parent == null && Nodes(s) !! NodesOf(shapes) && container !in Nodes(s)
      modifies this`shapes, container`childNodes, refs`current, NodesOf(shapes), Nodes(s)
      ensures Valid() && ViewAll(shapes) == Expected(v)
      ensures shapes == MergeKids(old(shapes), Flat(s))
    {
      hide Nodes, NodesOf, Linked, Content, Expected, Uses, ViewAll, MergeKids, Made, Placed, Ready, Hung;
      ghost var stale := FootprintOf(shapes);
      ghost var made := Footprint(s);
      ghost var source := if dom.kind.FragmentKind? then dom else null;
      var nextChildren := if dom.kind.FragmentKind? then dom.childNodes else [dom];
      ghost var all := stale + NodesOf(Flat(s));
      FlatNodes(s);
      FreshReady(container, shapes, s, v, refs.State());
      MorphChildren(container, nextChildren, refs, shapes, Flat(s), source, Expected(v), all);
      MergedSeparate(container, source, shapes, Flat(s));
      shapes := MergeKids(shapes, Flat(s));
      MergedValid(container, shapes, Expected(v), refs.State());
    }

    /** The DOM half of `render`: a fresh tree is built and the container's children are morphed into it.
        Whatever was shown before, the page then shows the new vnode. */
    method Render(v: VNode) returns (ghost made: seq<Shape>)
      requires Valid() && WellFormed(v)
      modifies this`shapes, container`childNodes, refs, NodesOf(shapes)
      ensures Valid()
      ensures ViewAll(shapes) == Expected(v)
      ensures shapes == MergeKids(old(shapes), made) && fresh(NodesOf(made))
      ensures refs.once == set id | id in Uses(v) && Uses(v)[id] == 1
      ensures forall n :: n in NodesOf(shapes) ==> Listens(n.listeners, n.vprops)
      ensures forall n, id :: n in NodesOf(shapes) && HoldsCell(n, id) && id in refs.once ==>
        id in refs.current && refs.current[id] == n
    {
      hide Nodes, NodesOf, Linked, Content, Expected, Uses, WellFormed, ViewAll, MergeKids, Made, AllSeparate, Hung;
      hide Listens, HoldsCell, RefHeld, Handlers;
      ghost var stale := FootprintOf(shapes);
      refs.once := set id | id in Uses(v) && Uses(v)[id] == 1;
      var dom, s := ToDom(v, refs);
      made := Flat(s);
      FlatNodes(s);
      Commit(dom, v, s);
      LiveListens(NodesOf(shapes));
      LiveRefs(NodesOf(shapes), refs.State());
    }
  }

  /** The node's props name the ref object `id`; text has no props. */
  ghost predicate HoldsCell(n: DomNode, id: nat)
    reads n`vprops
  {
    !n.kind.TextKind? && "ref" in n.vprops && n.vprops["ref"] == RefCell(id)
  }

  lemma LiveListens(nodes: set<DomNode>)
    requires Wired(nodes)
    ensures forall n :: n in nodes ==> Listens(n.listeners, n.vprops)
  {
    hide Handlers, Listens;
    forall n | n in nodes ensures Listens(n.listeners, n.vprops) { HandlersMean(n.vprops); }
  }

  lemma LiveRefs(nodes: set<DomNode>, cells: Cells)
    requires RefsHeld(nodes, cells)
    ensures forall n, id :: n in nodes && HoldsCell(n, id) && id in cells.once ==> id in cells.at && cells.at[id] == n
  {
  }

  lemma MergedSeparate(container: DomNode, source: DomNode?, ps: seq<Shape>, ns: seq<Shape>)
    requires Ready(container, source, ps, ns)
    ensures AllSeparate(MergeKids(ps, ns)) && container !in NodesOf(MergeKids(ps, ns))
    ensures NodesOf(MergeKids(ps, ns)) <= NodesOf(ps) + NodesOf(ns)
  {
    hide Nodes, NodesOf, MergeKids;
    MergeKidsSeparate(ps, ns);
    MergeKidsNodes(ps, ns);
  }

  lemma EmptyNodes()
    ensures NodesOf([]) == {}
  {
    NodesOfBound([], {});
  }

  /** A freshly made tree meets what the reconciler asks for. */
  lemma FreshReady(container: DomNode, shapes: seq<Shape>, s: Shape, v: VNode, cells: Cells)
    requires Made(s, v, cells) && (s.node.parent == null || s.node.kind.FragmentKind?)
    requires AllSeparate(shapes) && container !in NodesOf(shapes)
    requires Nodes(s) !! NodesOf(shapes) && container !in Nodes(s)
    ensures var source := if s.node.kind.FragmentKind? then s.node else null;
      && Ready(container, source, shapes, Flat(s))
      && |Expected(v)| == |Flat(s)|
      && (forall j :: 0 <= j < |Flat(s)| ==> Placed(Flat(s)[j], source, Expected(v)[j], cells))
    ensures Roots(Flat(s)) == if s.node.kind.FragmentKind? then s.node.childNodes else [s.node]
    ensures Wired(NodesOf(Flat(s)))
  {
    hide Nodes, NodesOf, Expected, Uses, RefHeld, View, Content, Linked, AllSeparate, Separate, Hung, Placed, RefsHeld;
    FlatNodes(s);
    FlatSeparate(s);
    var made, source := Flat(s), if s.node.kind.FragmentKind? then s.node else null;
    ContentParts(made, Expected(v), Uses(v), cells);
    FlatHung(s);
    SourceApart(s);
    forall j | 0 <= j < |made| ensures Placed(made[j], source, Expected(v)[j], cells) {
      FlatPlaced(made, j, source, Expected(v), cells);
    }
  }

  lemma FlatSeparate(s: Shape)
    requires Separate(s)
    ensures AllSeparate(Flat(s))
  {
    hide Nodes, NodesOf, Separate, AllSeparate, Flat;
    EmptyNodes();
    NoneSeparate();
    JoinSeparate([], s);
    assert [] + Flat(s) == Flat(s);
  }

  lemma NoneSeparate()
    ensures AllSeparate([])
  {
  }

  lemma ContentParts(shapes: seq<Shape>, trees: seq<Tree>, uses: multiset<nat>, cells: Cells)
    requires Content(shapes, trees, uses, cells)
    ensures |shapes| == |trees| && (forall j :: 0 <= j < |shapes| ==> View(shapes[j]) == trees[j])
    ensures Wired(NodesOf(shapes)) && RefsHeld(NodesOf(shapes), cells)
  {
    hide View, Wired, RefsHeld, NodesOf, RefsFrom;
  }

  /** The roots of a freshly made tree hang where the tree was made. */
  lemma FlatHung(s: Shape)
    requires Linked(s) && (s.node.parent == null || s.node.kind.FragmentKind?)
    ensures forall k :: k in Flat(s) ==>
      Linked(k) && k.node.parent == (if s.node.kind.FragmentKind? then s.node else null)
    ensures Roots(Flat(s)) == if s.node.kind.FragmentKind? then s.node.childNodes else [s.node]
  {
    hide Nodes, NodesOf;
  }

  lemma SourceApart(s: Shape)
    requires Separate(s)
    ensures s.node.kind.FragmentKind? ==> s.node !in NodesOf(Flat(s))
  {
    hide Nodes, NodesOf;
  }

  lemma FlatPlaced(shapes: seq<Shape>, j: nat, parent: DomNode?, views: seq<Tree>, cells: Cells)
    requires j < |shapes| && j < |views| && Linked(shapes[j]) && shapes[j].node.parent == parent
    requires View(shapes[j]) == views[j] && RefsHeld(NodesOf(shapes), cells)
    ensures Placed(shapes[j], parent, views[j], cells)
  {
    hide Nodes, NodesOf, Linked, View, RefHeld;
    assert shapes[j] in shapes;
  }

  /** What the reconciler leaves is a valid root again. */
  lemma MergedValid(container: DomNode, shapes: seq<Shape>, views: seq<Tree>, cells: Cells)
    requires |views| == |shapes|
    requires forall j :: 0 <= j < |shapes| ==> Placed(shapes[j], container, views[j], cells)
    ensures ViewAll(shapes) == views && (forall k :: k in shapes ==> Hung(k, container))
    ensures RefsHeld(NodesOf(shapes), cells)
  {
    hide Nodes, Linked, RefHeld, View;
    forall k | k in shapes ensures Hung(k, container) && RefsHeld(Nodes(k), cells) {
      var j :| 0 <= j < |shapes| && shapes[j] == k;
      assert Placed(shapes[j], container, views[j], cells);
    }
  }
}
