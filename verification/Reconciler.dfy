/** The in-place reconciler of the dashboard runtime. */
module Reconciler {
  import opened Dom

  // ---------- Props of one node ----------

  method RemoveOldListeners(current: DomNode, oldProps: Props)
    modifies current`listeners
    ensures current.listeners == old(current.listeners) - Handlers(oldProps)
    ensures forall s: string, f: nat ::
      (s, f) in current.listeners <==> (s, f) in old(current.listeners) && !AsksFor(oldProps, s, f)
  {
    hide AsksFor, EventName;
    HandlersMean(oldProps);
    var keys, done := oldProps.Keys, {};
    while keys != {}
      invariant keys + done == oldProps.Keys
      invariant current.listeners == old(current.listeners) - HandlersAmong(oldProps, done)
      decreases keys
    {
      var key :| key in keys;
      var value := oldProps[key];
      if IsListener(key, value) {
        current.listeners := current.listeners - {(EventName(key), value.f)};
      }
      keys, done := keys - {key}, done + {key};
    }
  }

  method SyncAttributes(current: DomNode, next: DomNode)
    requires current != next
    modifies current`attributes
    ensures current.attributes == DropEmptyStyle(next.attributes)
  {
    var names := current.attributes.Keys;
    while names != {}
      invariant forall a :: a in current.attributes ==> a in next.attributes || a in names
      decreases names
    {
      var name :| name in names;
      if name !in next.attributes { current.attributes := current.attributes - {name}; }
      names := names - {name};
    }
    names := next.attributes.Keys;
    while names != {}
      invariant names <= next.attributes.Keys
      invariant forall a :: a in current.attributes ==> a in next.attributes
      invariant forall a :: a in next.attributes && a !in names ==>
        a in current.attributes && current.attributes[a] == next.attributes[a]
      decreases names
    {
      var name :| name in names;
      if !(name in current.attributes && current.attributes[name] == next.attributes[name]) {
        current.attributes := current.attributes[name := next.attributes[name]];
      }
      names := names - {name};
    }
    assert current.attributes == next.attributes;
    current.attributes := current.attributes - {"style"};
    if "style" in next.attributes && next.attributes["style"] != "" {
      current.attributes := current.attributes["style" := next.attributes["style"]];
    }
  }

  method InstallProps(current: DomNode, newProps: Props, refs: RefTable)
    modifies current`listeners, refs`current
    ensures current.listeners == old(current.listeners) + Handlers(newProps)
    ensures refs.current ==
      if HasRef(newProps) then old(refs.current)[newProps["ref"].id := current] else old(refs.current)
  {
    var keys, done := newProps.Keys, {};
    while keys != {}
      invariant keys + done == newProps.Keys
      invariant current.listeners == old(current.listeners) + HandlersAmong(newProps, done)
      invariant refs.current ==
        if "ref" in done && HasRef(newProps) then
          old(refs.current)[newProps["ref"].id := current]
        else old(refs.current)
      decreases keys
    {
      var key :| key in keys;
      var value := newProps[key];
      if IsListener(key, value) {
        current.listeners := current.listeners + {(EventName(key), value.f)};
      } else if key == "ref" && value.RefCell? {
        refs.current := refs.current[value.id := current];
      }
      keys, done := keys - {key}, done + {key};
    }
  }

  method SyncProps(current: DomNode, next: DomNode, refs: RefTable)
    requires current != next
    requires current.listeners == Handlers(current.vprops)
    modifies current`listeners, current`attributes, current`vprops, refs`current
    ensures current.attributes == DropEmptyStyle(next.attributes)
    ensures current.vprops == next.vprops
    ensures current.listeners == Handlers(current.vprops) && Listens(current.listeners, current.vprops)
    ensures refs.current ==
      if HasRef(next.vprops) then old(refs.current)[next.vprops["ref"].id := current] else old(refs.current)
  {
    hide AsksFor;
    var newProps := next.vprops;
    RemoveOldListeners(current, current.vprops);
    SyncAttributes(current, next);
    InstallProps(current, newProps, refs);
    current.vprops := newProps;
    HandlersMean(current.vprops);
  }

  // ---------- Which nodes stay ----------

  /** Old nodes are kept wherever the kinds agree, and from there down. */
  ghost function Merge(p: Shape, n: Shape): Shape
    decreases n
  {
    if p.node.kind == n.node.kind then Shape(p.node, MergeKids(p.kids, n.kids)) else n
  }

  ghost function MergeKids(ps: seq<Shape>, ns: seq<Shape>): (r: seq<Shape>)
    decreases ns
    ensures |r| == |ns|
    ensures forall i :: 0 <= i < |ns| ==> r[i] == if i < |ps| then Merge(ps[i], ns[i]) else ns[i]
  {
    seq(|ns|, i requires 0 <= i < |ns| => if i < |ps| then Merge(ps[i], ns[i]) else ns[i])
  }

  lemma {:induction false} MergeNodes(p: Shape, n: Shape)
    ensures Nodes(Merge(p, n)) <= Nodes(p) + Nodes(n)
    decreases n
  {
    if p.node.kind == n.node.kind { MergeKidsNodes(p.kids, n.kids); }
  }

  lemma NodesOfBound(shapes: seq<Shape>, bound: set<DomNode>)
    requires forall k :: k in shapes ==> Nodes(k) <= bound
    ensures NodesOf(shapes) <= bound
  {
    hide Nodes;
  }

  lemma {:induction false} MergeKidNodes(ps: seq<Shape>, ns: seq<Shape>, i: nat)
    requires i < |ns|
    ensures Nodes(MergeKids(ps, ns)[i]) <= (if i < |ps| then Nodes(ps[i]) else {}) + Nodes(ns[i])
    decreases ns, 0
  {
    hide Nodes, NodesOf, Merge;
    if i < |ps| { MergeNodes(ps[i], ns[i]); }
  }

  lemma {:induction false} MergeKidsNodes(ps: seq<Shape>, ns: seq<Shape>)
    ensures NodesOf(MergeKids(ps, ns)) <= NodesOf(ps) + NodesOf(ns)
    decreases ns, 1
  {
    hide Nodes, NodesOf, Merge;
    var r := MergeKids(ps, ns);
    forall k | k in r ensures Nodes(k) <= NodesOf(ps) + NodesOf(ns) {
      var i :| 0 <= i < |r| && r[i] == k;
      MergeKidNodes(ps, ns, i);
      assert ns[i] in ns && (i < |ps| ==> ps[i] in ps);
    }
    NodesOfBound(r, NodesOf(ps) + NodesOf(ns));
  }

  // ---------- The reconciler ----------

  /** What is known about an untouched or a finished subtree. */
  ghost predicate Placed(s: Shape, parent: DomNode?, view: Tree, cells: Cells)
    reads Nodes(s)
  {
    s.node.parent == parent && Linked(s) && View(s) == view && RefsHeld(Nodes(s), cells)
  }

  ghost predicate Hung(s: Shape, parent: DomNode)
    reads Nodes(s)
  {
    s.node.parent == parent && Linked(s)
  }

  /** Only cells that held one of the given nodes have changed. */
  ghost predicate OtherRefsKept(before: Cells, after: Cells, changed: set<DomNode>) {
    && before.once == after.once
    && forall id :: id in before.once && id in before.at && before.at[id] !in changed ==>
         id in after.at && after.at[id] == before.at[id]
  }

  ghost function Just(n: DomNode?): set<DomNode> {
    if n == null then {} else {n}
  }

  /** The trees of a call share no node with each other or with the two nodes above them. */
  ghost predicate Apart(parent: DomNode, source: DomNode?, stale: set<DomNode>, made: set<DomNode>) {
    && stale !! made
    && parent != source
    && parent !in stale && parent !in made
    && (source != null ==> source !in stale && source !in made)
  }

  lemma OpenPlaced(s: Shape, parent: DomNode?, view: Tree, cells: Cells)
    requires Placed(s, parent, view, cells)
    ensures |view.kids| == |s.kids|
    ensures forall j :: 0 <= j < |s.kids| ==> Placed(s.kids[j], s.node, view.kids[j], cells)
  {
    hide RefHeld, Nodes, NodesOf;
    forall j | 0 <= j < |s.kids| ensures Placed(s.kids[j], s.node, view.kids[j], cells) {
      assert s.kids[j] in s.kids;
      assert view.kids[j] == View(s.kids[j]);
    }
  }

  lemma ClosePlaced(s: Shape, parent: DomNode?, view: Tree, cells: Cells)
    requires s.node.parent == parent && !s.node.kind.TextKind? && s.node.childNodes == Roots(s.kids)
    requires |view.kids| == |s.kids|
    requires forall j :: 0 <= j < |s.kids| ==> Placed(s.kids[j], s.node, view.kids[j], cells)
    requires view == Tree(s.node.kind, "", DropEmptyStyle(s.node.attributes), s.node.vprops, view.kids)
    requires RefHeld(s.node, cells)
    ensures Placed(s, parent, view, cells)
  {
    hide RefHeld;
    CloseView(s, view, cells);
    CloseRefs(s, view, cells);
    forall k | k in s.kids ensures k.node.parent == s.node && Linked(k) {
      var j :| 0 <= j < |s.kids| && s.kids[j] == k;
      assert Placed(s.kids[j], s.node, view.kids[j], cells);
    }
  }

  lemma CloseView(s: Shape, view: Tree, cells: Cells)
    requires !s.node.kind.TextKind? && |view.kids| == |s.kids|
    requires forall j :: 0 <= j < |s.kids| ==> Placed(s.kids[j], s.node, view.kids[j], cells)
    requires view == Tree(s.node.kind, "", DropEmptyStyle(s.node.attributes), s.node.vprops, view.kids)
    ensures View(s) == view
  {
    hide RefsHeld, Linked;
    assert ViewAll(s.kids) == view.kids;
  }

  lemma CloseRefs(s: Shape, view: Tree, cells: Cells)
    requires |view.kids| == |s.kids|
    requires forall j :: 0 <= j < |s.kids| ==> Placed(s.kids[j], s.node, view.kids[j], cells)
    requires RefHeld(s.node, cells)
    ensures RefsHeld(Nodes(s), cells)
  {
    hide RefHeld, Linked, View, Nodes;
    forall k | k in s.kids ensures RefsHeld(Nodes(k), cells) {
      var j :| 0 <= j < |s.kids| && s.kids[j] == k;
      assert Placed(s.kids[j], s.node, view.kids[j], cells);
    }
    RefsOfKids(s, cells);
  }

  lemma RefsOfKids(s: Shape, cells: Cells)
    requires RefHeld(s.node, cells)
    requires forall k :: k in s.kids ==> RefsHeld(Nodes(k), cells)
    ensures RefsHeld(Nodes(s), cells)
  {
    hide RefHeld;
  }

  /** A subtree keeps its refs when only cells of other nodes change. */
  lemma StillPlaced(s: Shape, parent: DomNode?, view: Tree, before: Cells, after: Cells, changed: set<DomNode>)
    requires Placed(s, parent, view, before)
    requires Nodes(s) !! changed && OtherRefsKept(before, after, changed)
    ensures Placed(s, parent, view, after)
  {
    hide View, Linked;
  }

  method ReplaceNode(parent: DomNode, current: DomNode, next: DomNode,
                     ghost p: Shape, ghost n: Shape, ghost i: nat, ghost source: DomNode?, ghost view: Tree,
                     ghost cells: Cells)
    requires current == p.node && next == n.node
    requires i < |parent.childNodes| && parent.childNodes[i] == current
    requires forall j :: 0 <= j < |parent.childNodes| && j != i ==> parent.childNodes[j] != current
    requires Separate(n) && Apart(parent, source, Nodes(p), Nodes(n))
    requires Placed(n, source, view, cells)
    modifies parent`childNodes, Just(source)`childNodes, next`parent, current`parent
    ensures parent.childNodes == old(parent.childNodes)[i := next]
    ensures Placed(n, parent, view, cells)
  {
    hide View, RefsHeld, Linked, Nodes, NodesOf;
    ghost var made := Footprint(n);
    parent.ReplaceChild(next, current, i);
  }

  method MorphText(current: DomNode, next: DomNode, ghost p: Shape, ghost n: Shape,
                   ghost parent: DomNode, ghost source: DomNode?, ghost view: Tree, ghost cells: Cells)
    requires current == p.node && next == n.node && current != next
    requires current.kind == next.kind == TextKind
    requires Hung(p, parent) && Placed(n, source, view, cells)
    modifies current`nodeValue
    ensures Placed(Shape(current, MergeKids(p.kids, n.kids)), parent, view, cells)
  {
    if current.nodeValue != next.nodeValue { current.nodeValue := next.nodeValue; }
  }

  lemma OpenHung(p: Shape, parent: DomNode)
    requires Hung(p, parent)
    ensures p.node.parent == parent && p.node.childNodes == Roots(p.kids) && forall k :: k in p.kids ==> Hung(k, p.node)
  {
  }

  lemma KidsStillPlaced(shapes: seq<Shape>, parent: DomNode?, views: seq<Tree>, before: Cells, after: Cells,
                        changed: set<DomNode>)
    requires |shapes| == |views|
    requires forall j :: 0 <= j < |shapes| ==> Placed(shapes[j], parent, views[j], before)
    requires NodesOf(shapes) !! changed && OtherRefsKept(before, after, changed)
    ensures forall j :: 0 <= j < |shapes| ==> Placed(shapes[j], parent, views[j], after)
  {
    hide Placed, Nodes, NodesOf, OtherRefsKept;
    forall j | 0 <= j < |shapes| ensures Placed(shapes[j], parent, views[j], after) {
      assert shapes[j] in shapes;
      StillPlaced(shapes[j], parent, views[j], before, after, changed);
    }
  }

  /** What syncing the props of an element establishes before its children are visited. */
  method SyncElement(current: DomNode, next: DomNode, refs: RefTable, ghost p: Shape, ghost n: Shape,
                     ghost parent: DomNode, ghost source: DomNode?, ghost view: Tree, ghost all: set<DomNode>)
    requires current == p.node && next == n.node && current.kind == next.kind && !current.kind.TextKind?
    requires Separate(p) && Separate(n) && Apart(parent, source, Nodes(p), Nodes(n))
    requires Hung(p, parent) && Placed(n, source, view, refs.State())
    requires Nodes(p) <= all && Nodes(n) <= all && Wired(all)
    modifies current`listeners, current`attributes, current`vprops, refs`current
    ensures current.childNodes == Roots(p.kids) && forall k :: k in p.kids ==> Hung(k, current)
    ensures next.childNodes == Roots(n.kids) && |view.kids| == |n.kids|
    ensures forall j :: 0 <= j < |n.kids| ==> Placed(n.kids[j], next, view.kids[j], refs.State())
    ensures current.parent == parent && RefHeld(current, refs.State())
    ensures view == Tree(current.kind, "", DropEmptyStyle(current.attributes), current.vprops, view.kids)
    ensures Wired(all)
    ensures OtherRefsKept(old(refs.State()), refs.State(), {next})
  {
    hide Linked, RefsHeld, Nodes, NodesOf, Placed, Hung, View;
    ghost var stale := Footprint(p);
    ghost var made := Footprint(n);
    ghost var before := refs.State();
    OpenHung(p, parent);
    OpenPlaced(n, source, view, before);
    ReadPlaced(n, source, view, before);
    WiredNode(current, all);
    assert next in made && current in stale;
    SyncProps(current, next, refs);
    assert OtherRefsKept(before, refs.State(), {next});
    KidsStillPlaced(n.kids, next, view.kids, before, refs.State(), {next});
  }

  lemma WiredNode(x: DomNode, nodes: set<DomNode>)
    requires Wired(nodes) && x in nodes
    ensures x.listeners == Handlers(x.vprops)
  {
  }

  lemma ReadPlaced(s: Shape, parent: DomNode?, view: Tree, cells: Cells)
    requires Placed(s, parent, view, cells) && !s.node.kind.TextKind?
    ensures s.node.parent == parent && s.node.childNodes == Roots(s.kids)
    ensures view == Tree(s.node.kind, "", DropEmptyStyle(s.node.attributes), s.node.vprops, view.kids)
    ensures RefHeld(s.node, cells)
  {
  }

  method MorphElement(current: DomNode, next: DomNode, refs: RefTable, ghost p: Shape, ghost n: Shape,
                      ghost parent: DomNode, ghost source: DomNode?, ghost view: Tree, ghost all: set<DomNode>)
    requires current == p.node && next == n.node && current.kind == next.kind && !current.kind.TextKind?
    requires Separate(p) && Separate(n) && Apart(parent, source, Nodes(p), Nodes(n))
    requires Hung(p, parent) && Placed(n, source, view, refs.State())
    requires Nodes(p) <= all && Nodes(n) <= all && Wired(all)
    modifies Nodes(p), Nodes(n), refs`current
    ensures Placed(Shape(current, MergeKids(p.kids, n.kids)), parent, view, refs.State())
    ensures Wired(all)
    ensures OtherRefsKept(old(refs.State()), refs.State(), Nodes(n))
    decreases n, 0
  {
    hide Placed, Hung, Nodes, NodesOf, Linked;
    ghost var stale := Footprint(p);
    ghost var made := Footprint(n);
    SyncElement(current, next, refs, p, n, parent, source, view, all);
    MorphChildren(current, next.childNodes, refs, p.kids, n.kids, next, view.kids, all);
    ClosePlaced(Shape(current, MergeKids(p.kids, n.kids)), parent, view, refs.State());
  }

  method MorphNode(parent: DomNode, current: DomNode, next: DomNode, refs: RefTable,
                   ghost p: Shape, ghost n: Shape, ghost i: nat, ghost source: DomNode?, ghost view: Tree,
                   ghost all: set<DomNode>)
    requires current == p.node && next == n.node
    requires i < |parent.childNodes| && parent.childNodes[i] == current
    requires forall j :: 0 <= j < |parent.childNodes| && j != i ==> parent.childNodes[j] != current
    requires Separate(p) && Separate(n) && Apart(parent, source, Nodes(p), Nodes(n))
    requires Hung(p, parent) && Placed(n, source, view, refs.State())
    requires Nodes(p) <= all && Nodes(n) <= all && Wired(all)
    modifies parent`childNodes, Just(source)`childNodes, Nodes(p), Nodes(n), refs`current
    ensures parent.childNodes == old(parent.childNodes)[i := Merge(p, n).node]
    ensures Placed(Merge(p, n), parent, view, refs.State())
    ensures Wired(all)
    ensures OtherRefsKept(old(refs.State()), refs.State(), Nodes(n))
    decreases n, 1
  {
    hide Linked, View, RefsHeld, Nodes, NodesOf, MergeKids, Separate;
    ghost var stale := Footprint(p);
    ghost var made := Footprint(n);
    if current.kind != next.kind {
      ReplaceNode(parent, current, next, p, n, i, source, view, refs.State());
    } else if current.kind.TextKind? {
      MorphText(current, next, p, n, parent, source, view, refs.State());
    } else {
      MorphElement(current, next, refs, p, n, parent, source, view, all);
    }
  }

  // ---------- Positions in the child list ----------

  function Least(a: nat, b: nat): nat { if a <= b then a else b }

  ghost predicate Ready(parent: DomNode, source: DomNode?, ps: seq<Shape>, ns: seq<Shape>) {
    AllSeparate(ps) && AllSeparate(ns) && Apart(parent, source, NodesOf(ps), NodesOf(ns))
  }

  /** The nodes a position may come to hold are not the nodes of another position. */
  lemma PositionsApart(parent: DomNode, source: DomNode?, ps: seq<Shape>, ns: seq<Shape>, i: nat, j: nat)
    requires Ready(parent, source, ps, ns) && i != j && j < |ns|
    ensures parent !in Nodes(MergeKids(ps, ns)[j]) && source !in Nodes(MergeKids(ps, ns)[j])
    ensures i < |ps| ==> Nodes(MergeKids(ps, ns)[j]) !! Nodes(ps[i]) && Nodes(ns[j]) !! Nodes(ps[i])
    ensures i < |ns| ==> Nodes(MergeKids(ps, ns)[j]) !! Nodes(ns[i]) && Nodes(ns[j]) !! Nodes(ns[i])
  {
    hide Nodes, NodesOf, Merge, Separate;
    MergeKidNodes(ps, ns, j);
    assert ns[j] in ns && (i < |ns| ==> ns[i] in ns) && (i < |ps| ==> ps[i] in ps) && (j < |ps| ==> ps[j] in ps);
  }

  /** The state of the child list when positions below `i` are finished. */
  ghost predicate Upto(parent: DomNode, source: DomNode?, ps: seq<Shape>, ns: seq<Shape>, views: seq<Tree>, i: nat,
                       cells: Cells)
    requires |views| == |ns|
    reads parent, NodesOf(ps), NodesOf(ns), NodesOf(MergeKids(ps, ns))
  {
    var merged := MergeKids(ps, ns);
    && parent.childNodes == Roots(merged)[..Least(i, |ns|)] + Roots(ps)[Least(i, |ps|)..]
    && (forall j :: i <= j < |ps| ==> (assert ps[j] in ps; Hung(ps[j], parent)))
    && (forall j :: 0 <= j < Least(i, |ns|) ==>
      (assert merged[j] in merged; Placed(merged[j], parent, views[j], cells)))
    && (forall j :: i <= j < |ns| ==> (assert ns[j] in ns; Placed(ns[j], source, views[j], cells)))
  }

  method AppendPlaced(parent: DomNode, next: DomNode, ghost n: Shape, ghost source: DomNode?, ghost view: Tree,
                      ghost cells: Cells)
    requires next == n.node && Separate(n) && parent != source && parent !in Nodes(n) && source !in Nodes(n)
    requires Placed(n, source, view, cells)
    modifies parent`childNodes, Just(source)`childNodes, next`parent
    ensures parent.childNodes == old(parent.childNodes) + [next]
    ensures Placed(n, parent, view, cells)
  {
    hide View, RefsHeld, Linked, Nodes, NodesOf;
    ghost var made := Footprint(n);
    parent.AppendChild(next);
  }

  lemma RemovedPosition(parent: DomNode, source: DomNode?, ps: seq<Shape>, ns: seq<Shape>, i: nat)
    requires Ready(parent, source, ps, ns) && |ns| <= i < |ps|
    ensures var merged := MergeKids(ps, ns);
      var now := Roots(merged)[..Least(i, |ns|)] + Roots(ps)[i..];
      && ps[i].node in now
      && Without(now, ps[i].node) == Roots(merged)[..Least(i + 1, |ns|)] + Roots(ps)[i + 1..]
  {
    hide Nodes, NodesOf, Merge, Separate;
    var merged := MergeKids(ps, ns);
    OldRootsApart(ps, i);
    forall j | 0 <= j < |ns| ensures merged[j].node != ps[i].node {
      PositionsApart(parent, source, ps, ns, i, j);
    }
    assert Roots(merged)[..|ns|] == Roots(merged);
    RemovedAt(Roots(merged), Roots(ps), i);
  }

  lemma OldRootsApart(ps: seq<Shape>, i: nat)
    requires AllSeparate(ps) && i < |ps|
    ensures forall j :: 0 <= j < |ps| && j != i ==> ps[i].node !in Nodes(ps[j])
  {
    hide Nodes;
  }

  lemma RemovedAt(done: seq<DomNode>, stale: seq<DomNode>, i: nat)
    requires |done| <= i < |stale| && stale[i] !in done
    ensures Without(done + stale[i..], stale[i]) == done + stale[i + 1..]
    ensures stale[i] in done + stale[i..]
  {
    hide Without;
    assert stale[i..] == [stale[i]] + stale[i + 1..];
    WithoutFirst(done, stale[i], stale[i + 1..]);
  }

  lemma UptoStart(parent: DomNode, source: DomNode?, ps: seq<Shape>, ns: seq<Shape>, views: seq<Tree>, cells: Cells)
    requires |views| == |ns| && parent.childNodes == Roots(ps)
    requires forall k :: k in ps ==> Hung(k, parent)
    requires forall j :: 0 <= j < |ns| ==> Placed(ns[j], source, views[j], cells)
    ensures Upto(parent, source, ps, ns, views, 0, cells)
  {
    hide Hung, Placed, Nodes, NodesOf, Merge;
  }

  lemma UptoEnd(parent: DomNode, source: DomNode?, ps: seq<Shape>, ns: seq<Shape>, views: seq<Tree>, i: nat,
                cells: Cells)
    requires |views| == |ns| && |ps| <= i && |ns| <= i
    requires Upto(parent, source, ps, ns, views, i, cells)
    ensures parent.childNodes == Roots(MergeKids(ps, ns))
    ensures forall j :: 0 <= j < |ns| ==> Placed(MergeKids(ps, ns)[j], parent, views[j], cells)
  {
    hide Hung, Placed, Nodes, NodesOf, Merge;
  }

  /** What position `i` offers to the call that morphs it. */
  lemma UptoAt(parent: DomNode, source: DomNode?, ps: seq<Shape>, ns: seq<Shape>, views: seq<Tree>, i: nat,
               cells: Cells)
    requires Ready(parent, source, ps, ns) && |views| == |ns| && i < |ps| && i < |ns|
    requires Upto(parent, source, ps, ns, views, i, cells)
    ensures |parent.childNodes| == |ps| && parent.childNodes[i] == ps[i].node
    ensures forall j :: 0 <= j < |ps| && j != i ==> parent.childNodes[j] != ps[i].node
    ensures parent.childNodes[i := MergeKids(ps, ns)[i].node] == Roots(MergeKids(ps, ns))[..i + 1] + Roots(ps)[i + 1..]
    ensures Separate(ps[i]) && Separate(ns[i]) && Apart(parent, source, Nodes(ps[i]), Nodes(ns[i]))
    ensures Hung(ps[i], parent) && Placed(ns[i], source, views[i], cells)
  {
    hide Nodes, NodesOf, Separate, AllSeparate, Merge, MergeKids, Hung, Placed, Ready, Apart, Roots;
    ReadyAt(parent, source, ps, ns, i);
    UptoParts(parent, source, ps, ns, views, i, cells);
    ListAt(Roots(MergeKids(ps, ns)), Roots(ps), i);
    forall j | 0 <= j < |ps| && j != i ensures parent.childNodes[j] != ps[i].node {
      if j < i { MergedRootApart(parent, source, ps, ns, i, j); } else { OldRootApart(parent, source, ps, ns, i, j); }
    }
  }

  lemma ReadyAt(parent: DomNode, source: DomNode?, ps: seq<Shape>, ns: seq<Shape>, i: nat)
    requires Ready(parent, source, ps, ns) && i < |ps| && i < |ns|
    ensures Separate(ps[i]) && Separate(ns[i]) && Apart(parent, source, Nodes(ps[i]), Nodes(ns[i]))
  {
    hide Nodes, NodesOf, Separate;
    assert ps[i] in ps && ns[i] in ns;
  }

  lemma UptoParts(parent: DomNode, source: DomNode?, ps: seq<Shape>, ns: seq<Shape>, views: seq<Tree>, i: nat,
                  cells: Cells)
    requires |views| == |ns| && i < |ps| && i < |ns| && Upto(parent, source, ps, ns, views, i, cells)
    ensures parent.childNodes == Roots(MergeKids(ps, ns))[..i] + Roots(ps)[i..]
    ensures Hung(ps[i], parent) && Placed(ns[i], source, views[i], cells)
  {
    hide Nodes, NodesOf, Merge, MergeKids, Hung, Placed, Roots;
  }

  lemma ListAt(merged: seq<DomNode>, stale: seq<DomNode>, i: nat)
    requires i < |merged| && i < |stale|
    ensures |merged[..i] + stale[i..]| == |stale|
    ensures (merged[..i] + stale[i..])[i := merged[i]] == merged[..i + 1] + stale[i + 1..]
    ensures forall j :: 0 <= j < |stale| ==> (merged[..i] + stale[i..])[j] == if j < i then merged[j] else stale[j]
  {
  }

  lemma MergedRootApart(parent: DomNode, source: DomNode?, ps: seq<Shape>, ns: seq<Shape>, i: nat, j: nat)
    requires Ready(parent, source, ps, ns) && j < i < |ps| && i < |ns|
    ensures Roots(MergeKids(ps, ns))[j] != ps[i].node
  {
    hide Nodes, NodesOf, Merge, MergeKids, Ready;
    PositionsApart(parent, source, ps, ns, i, j);
  }

  lemma OldRootApart(parent: DomNode, source: DomNode?, ps: seq<Shape>, ns: seq<Shape>, i: nat, j: nat)
    requires Ready(parent, source, ps, ns) && i < |ps| && j < |ps| && i != j
    ensures Roots(ps)[j] != ps[i].node
  {
    hide Nodes, NodesOf, AllSeparate;
    OldRootsApart(ps, i);
  }

  /** `rest` has the nodes of every position but `i`. */
  ghost predicate Covers(rest: set<DomNode>, ps: seq<Shape>, ns: seq<Shape>, i: nat) {
    && (forall j :: 0 <= j < |ns| && j != i ==> Nodes(MergeKids(ps, ns)[j]) <= rest && Nodes(ns[j]) <= rest)
    && (forall j :: i < j < |ps| ==> Nodes(ps[j]) <= rest)
  }

  /** What stays as it was at every position but `i`. */
  ghost predicate Elsewhere(parent: DomNode, source: DomNode?, ps: seq<Shape>, ns: seq<Shape>, views: seq<Tree>, i: nat,
                            cells: Cells, rest: set<DomNode>)
    requires |views| == |ns| && Covers(rest, ps, ns, i)
    reads rest
  {
    var merged := MergeKids(ps, ns);
    && (forall j :: i < j < |ps| ==> Hung(ps[j], parent))
    && (forall j :: 0 <= j < Least(i, |ns|) ==> Placed(merged[j], parent, views[j], cells))
    && (forall j :: i < j < |ns| ==> Placed(ns[j], source, views[j], cells))
  }

  lemma UptoElsewhere(parent: DomNode, source: DomNode?, ps: seq<Shape>, ns: seq<Shape>, views: seq<Tree>, i: nat,
                      cells: Cells, rest: set<DomNode>)
    requires |views| == |ns| && Upto(parent, source, ps, ns, views, i, cells) && Covers(rest, ps, ns, i)
    ensures Elsewhere(parent, source, ps, ns, views, i, cells, rest)
  {
    hide Nodes, NodesOf, Merge, Hung, Placed;
  }

  lemma UptoNext(parent: DomNode, source: DomNode?, ps: seq<Shape>, ns: seq<Shape>, views: seq<Tree>, i: nat,
                 cells: Cells, rest: set<DomNode>)
    requires |views| == |ns|
    requires parent.childNodes == Roots(MergeKids(ps, ns))[..Least(i + 1, |ns|)] + Roots(ps)[Least(i + 1, |ps|)..]
    requires Covers(rest, ps, ns, i) && Elsewhere(parent, source, ps, ns, views, i, cells, rest)
    requires i < |ns| ==> Placed(MergeKids(ps, ns)[i], parent, views[i], cells)
    ensures Upto(parent, source, ps, ns, views, i + 1, cells)
  {
    hide Nodes, NodesOf, Merge, Hung, Placed;
  }

  /** Cells of position `i` do not matter elsewhere. */
  lemma ElsewhereStays(parent: DomNode, source: DomNode?, ps: seq<Shape>, ns: seq<Shape>, views: seq<Tree>, i: nat,
                       before: Cells, after: Cells, rest: set<DomNode>)
    requires Ready(parent, source, ps, ns) && |views| == |ns| && i < |ns|
    requires Covers(rest, ps, ns, i) && Elsewhere(parent, source, ps, ns, views, i, before, rest)
    requires OtherRefsKept(before, after, Nodes(ns[i]))
    ensures Elsewhere(parent, source, ps, ns, views, i, after, rest)
  {
    hide Nodes, NodesOf, Merge, Hung, Placed, OtherRefsKept, Separate;
    var merged := MergeKids(ps, ns);
    forall j | 0 <= j < |ns| && j != i
      ensures j < i ==> Placed(merged[j], parent, views[j], after)
      ensures j > i ==> Placed(ns[j], source, views[j], after)
    {
      PositionsApart(parent, source, ps, ns, i, j);
      if j < i { StillPlaced(merged[j], parent, views[j], before, after, Nodes(ns[i])); }
      else { StillPlaced(ns[j], source, views[j], before, after, Nodes(ns[i])); }
    }
  }

  /** The nodes a step at position `i` may change. */
  ghost function StepNodes(parent: DomNode, source: DomNode?, ps: seq<Shape>, ns: seq<Shape>, i: nat): set<DomNode> {
    Just(parent) + Just(source) + (if i < |ps| then Nodes(ps[i]) else {}) + (if i < |ns| then Nodes(ns[i]) else {})
  }

  /** None of them is a node of another position. */
  lemma ElsewhereApart(parent: DomNode, source: DomNode?, ps: seq<Shape>, ns: seq<Shape>, i: nat)
    returns (rest: set<DomNode>)
    requires Ready(parent, source, ps, ns)
    ensures Covers(rest, ps, ns, i)
    ensures rest !! StepNodes(parent, source, ps, ns, i)
  {
    hide Nodes, NodesOf, Merge, Separate;
    var merged := MergeKids(ps, ns);
    var step := StepNodes(parent, source, ps, ns, i);
    rest := NodesOf(ps) + NodesOf(ns) + NodesOf(merged) - step;
    forall j | 0 <= j < |ns| && j != i ensures Nodes(merged[j]) <= rest && Nodes(ns[j]) <= rest {
      assert ns[j] in ns && merged[j] in merged;
      PositionsApart(parent, source, ps, ns, i, j);
    }
    forall j | i < j < |ps| ensures Nodes(ps[j]) <= rest {
      assert ps[j] in ps && (i < |ns| ==> ns[i] in ns);
    }
  }

  method AppendNext(parent: DomNode, next: DomNode, ghost ps: seq<Shape>, ghost ns: seq<Shape>, ghost i: nat,
                    ghost source: DomNode?, ghost views: seq<Tree>, ghost cells: Cells)
    requires Ready(parent, source, ps, ns) && |views| == |ns|
    requires |ps| <= i < |ns| && next == ns[i].node
    requires Upto(parent, source, ps, ns, views, i, cells)
    modifies parent`childNodes, Just(source)`childNodes, next`parent
    ensures Upto(parent, source, ps, ns, views, i + 1, cells)
  {
    hide Placed, Hung, Nodes, NodesOf, Merge, Separate, Covers, Elsewhere;
    ghost var merged := MergeKids(ps, ns);
    ghost var rest := ElsewhereApart(parent, source, ps, ns, i);
    UptoElsewhere(parent, source, ps, ns, views, i, cells, rest);
    assert ns[i] in ns;
    AppendPlaced(parent, next, ns[i], source, views[i], cells);
    assert Roots(merged)[..i + 1] == Roots(merged)[..i] + [next];
    UptoNext(parent, source, ps, ns, views, i, cells, rest);
  }

  method RemoveCurrent(parent: DomNode, current: DomNode, ghost ps: seq<Shape>, ghost ns: seq<Shape>, ghost i: nat,
                       ghost source: DomNode?, ghost views: seq<Tree>, ghost cells: Cells)
    requires Ready(parent, source, ps, ns) && |views| == |ns|
    requires |ns| <= i < |ps| && current == ps[i].node
    requires Upto(parent, source, ps, ns, views, i, cells)
    modifies parent`childNodes, current`parent
    ensures Upto(parent, source, ps, ns, views, i + 1, cells)
  {
    hide Placed, Hung, Nodes, NodesOf, Merge, Separate, Covers, Elsewhere;
    ghost var rest := ElsewhereApart(parent, source, ps, ns, i);
    UptoElsewhere(parent, source, ps, ns, views, i, cells, rest);
    RemovedPosition(parent, source, ps, ns, i);
    parent.RemoveChild(current);
    UptoNext(parent, source, ps, ns, views, i, cells, rest);
  }

  method MergeAt(parent: DomNode, current: DomNode, next: DomNode, refs: RefTable, ghost ps: seq<Shape>,
                 ghost ns: seq<Shape>,
                 ghost i: nat, ghost source: DomNode?, ghost views: seq<Tree>, ghost all: set<DomNode>)
    requires Ready(parent, source, ps, ns) && |views| == |ns|
    requires i < |ps| && i < |ns| && current == ps[i].node && next == ns[i].node
    requires Upto(parent, source, ps, ns, views, i, refs.State())
    requires NodesOf(ps) <= all && NodesOf(ns) <= all && Wired(all)
    modifies parent`childNodes, Just(source)`childNodes, Nodes(ps[i]), Nodes(ns[i]), refs`current
    ensures Upto(parent, source, ps, ns, views, i + 1, refs.State())
    ensures Wired(all)
    ensures OtherRefsKept(old(refs.State()), refs.State(), Nodes(ns[i]))
    decreases ns, 1
  {
    hide Placed, Hung, Nodes, NodesOf, Merge, Separate, OtherRefsKept, Wired, Upto, AllSeparate, Apart, Ready, Covers,
      Elsewhere;
    ghost var before := refs.State();
    assert ps[i] in ps && ns[i] in ns;
    UptoAt(parent, source, ps, ns, views, i, before);
    ghost var rest := ElsewhereApart(parent, source, ps, ns, i);
    UptoElsewhere(parent, source, ps, ns, views, i, before, rest);
    MorphNode(parent, current, next, refs, ps[i], ns[i], i, source, views[i], all);
    ElsewhereStays(parent, source, ps, ns, views, i, before, refs.State(), rest);
    UptoNext(parent, source, ps, ns, views, i, refs.State(), rest);
  }

  /** The children of `parent` become what `nextChildren` show. Old nodes stay where `MergeKids` says. */
  method MorphChildren(parent: DomNode, nextChildren: seq<DomNode>, refs: RefTable, ghost ps: seq<Shape>,
                       ghost ns: seq<Shape>,
                       ghost source: DomNode?, ghost views: seq<Tree>, ghost all: set<DomNode>)
    requires parent.childNodes == Roots(ps) && nextChildren == Roots(ns) && |views| == |ns|
    requires Ready(parent, source, ps, ns)
    requires forall k :: k in ps ==> Hung(k, parent)
    requires forall j :: 0 <= j < |ns| ==> Placed(ns[j], source, views[j], refs.State())
    requires NodesOf(ps) <= all && NodesOf(ns) <= all && Wired(all)
    modifies parent`childNodes, Just(source)`childNodes, NodesOf(ps), NodesOf(ns), refs`current
    ensures parent.childNodes == Roots(MergeKids(ps, ns))
    ensures forall j :: 0 <= j < |ns| ==> Placed(MergeKids(ps, ns)[j], parent, views[j], refs.State())
    ensures Wired(all)
    ensures OtherRefsKept(old(refs.State()), refs.State(), NodesOf(ns))
    decreases ns, 2
  {
    hide Placed, Hung, Nodes, NodesOf, Merge, Separate, AllSeparate, Wired, Upto, Ready;
    var currentChildren := parent.childNodes;
    var count := if |currentChildren| >= |nextChildren| then |currentChildren| else |nextChildren|;
    UptoStart(parent, source, ps, ns, views, refs.State());
    var i := 0;
    while i < count
      invariant 0 <= i <= count
      invariant Upto(parent, source, ps, ns, views, i, refs.State())
      invariant Wired(all)
      invariant OtherRefsKept(old(refs.State()), refs.State(), NodesOf(ns))
    {
      assert (i < |ps| ==> ps[i] in ps) && (i < |ns| ==> ns[i] in ns);
      if i >= |currentChildren| {
        AppendNext(parent, nextChildren[i], ps, ns, i, source, views, refs.State());
      } else if i >= |nextChildren| {
        RemoveCurrent(parent, currentChildren[i], ps, ns, i, source, views, refs.State());
      } else {
        MergeAt(parent, currentChildren[i], nextChildren[i], refs, ps, ns, i, source, views, all);
      }
      i := i + 1;
    }
    UptoEnd(parent, source, ps, ns, views, i, refs.State());
  }
}
