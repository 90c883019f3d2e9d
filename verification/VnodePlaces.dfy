/** Where a vnode occurs in a tree, and what follows from it for the visits of a render, the nodes it should
    show, and the uses of a ref object. Nothing here is computed the way the renderer computes it. */
module VnodePlaces {
  import opened Prelude
  import opened Dom
  import opened VirtualTree
  import opened PathKeys

  // ---------- Spots ----------

  /** Down to a child of a group or an element, or to what a component rendered. */
  datatype Turn = Child(i: nat) | Body

  type Spot = seq<Turn>

  function NodeAt(v: VNode, p: Spot): Option<VNode>
    decreases |p|
  {
    if p == [] then Some(v)
    else if v.VGroup? || v.VElement? then
      if p[0].Child? && p[0].i < |v.kids| then NodeAt(v.kids[p[0].i], p[1..]) else None
    else if v.VComponent? && p[0].Body? then NodeAt(v.rendered, p[1..])
    else None
  }

  /** The order of the tree: a node before what is below it, a child before its later siblings. */
  predicate Before(p: Spot, q: Spot) {
    if q == [] then false
    else if p == [] then true
    else if p[0] == q[0] then Before(p[1..], q[1..])
    else p[0].Child? && q[0].Child? && p[0].i < q[0].i
  }

  predicate Picked(v: VNode, pick: VNode -> bool, p: Spot) { NodeAt(v, p).Some? && pick(NodeAt(v, p).value) }

  /** All spots of the vnodes wanted, each once, in the order of the tree. */
  ghost predicate InTreeOrder(spots: seq<Spot>, v: VNode, pick: VNode -> bool) {
    && (forall p :: p in spots <==> Picked(v, pick, p))
    && (forall m, n :: 0 <= m < n < |spots| ==> Before(spots[m], spots[n]))
  }

  function Under(turn: Turn, spots: seq<Spot>): (r: seq<Spot>)
    ensures |r| == |spots| && forall m :: 0 <= m < |r| ==> r[m] == [turn] + spots[m]
  {
    seq(|spots|, m requires 0 <= m < |spots| => [turn] + spots[m])
  }

  function Here(v: VNode, pick: VNode -> bool): seq<Spot> { if pick(v) then [[]] else [] }

  function Spots(v: VNode, pick: VNode -> bool): seq<Spot>
    decreases v, 1
  {
    Here(v, pick) +
    match v
    case VGroup(kids) => KidSpots(kids, pick, |kids|)
    case VElement(_, _, kids) => KidSpots(kids, pick, |kids|)
    case VComponent(_, _, _, rendered) => Under(Body, Spots(rendered, pick))
    case _ => []
  }

  function KidSpots(kids: seq<VNode>, pick: VNode -> bool, n: nat): seq<Spot>
    requires n <= |kids|
    decreases kids, 0, n
  {
    if n == 0 then [] else KidSpots(kids, pick, n - 1) + Under(Child(n - 1), Spots(kids[n - 1], pick))
  }

  lemma UnderFinds(turn: Turn, spots: seq<Spot>, p: Spot)
    ensures p in Under(turn, spots) <==> p != [] && p[0] == turn && p[1..] in spots
  {
    if p in Under(turn, spots) {
      var m :| 0 <= m < |spots| && Under(turn, spots)[m] == p;
      assert p[1..] == spots[m];
    }
    if p != [] && p[0] == turn && p[1..] in spots {
      var m :| 0 <= m < |spots| && spots[m] == p[1..];
      assert Under(turn, spots)[m] == p;
    }
  }

  lemma {:induction false} SpotsFind(v: VNode, pick: VNode -> bool, p: Spot)
    ensures p in Spots(v, pick) <==> Picked(v, pick, p)
    decreases v, 1
  {
    hide Spots, KidSpots;
    SpotsUnfold(v, pick);
    if v.VGroup? || v.VElement? {
      KidSpotsFind(v.kids, pick, |v.kids|, p);
    } else if v.VComponent? {
      UnderFinds(Body, Spots(v.rendered, pick), p);
      if p != [] { SpotsFind(v.rendered, pick, p[1..]); }
    }
  }

  lemma SpotsUnfold(v: VNode, pick: VNode -> bool)
    ensures (v.VGroup? || v.VElement?) ==> Spots(v, pick) == Here(v, pick) + KidSpots(v.kids, pick, |v.kids|)
    ensures v.VComponent? ==> Spots(v, pick) == Here(v, pick) + Under(Body, Spots(v.rendered, pick))
    ensures (v.VEmpty? || v.VText?) ==> Spots(v, pick) == Here(v, pick)
  {
  }

  lemma {:induction false} KidSpotsFind(kids: seq<VNode>, pick: VNode -> bool, n: nat, p: Spot)
    requires n <= |kids|
    ensures p in KidSpots(kids, pick, n) <==>
      p != [] && p[0].Child? && p[0].i < n && Picked(kids[p[0].i], pick, p[1..])
    decreases kids, 0, n
  {
    hide Spots;
    if n == 0 {
    } else {
      KidSpotsFind(kids, pick, n - 1, p);
      UnderFinds(Child(n - 1), Spots(kids[n - 1], pick), p);
      if p != [] { SpotsFind(kids[n - 1], pick, p[1..]); }
    }
  }

  predicate Ordered(spots: seq<Spot>) { forall m, n :: 0 <= m < n < |spots| ==> Before(spots[m], spots[n]) }

  lemma UnderOrdered(turn: Turn, spots: seq<Spot>)
    requires Ordered(spots)
    ensures Ordered(Under(turn, spots))
  {
    var r := Under(turn, spots);
    forall m, n | 0 <= m < n < |r| ensures Before(r[m], r[n]) {
      assert r[m][1..] == spots[m] && r[n][1..] == spots[n];
    }
  }

  lemma OrderedJoin(a: seq<Spot>, b: seq<Spot>)
    requires Ordered(a) && Ordered(b) && forall p, q :: p in a && q in b ==> Before(p, q)
    ensures Ordered(a + b)
  {
    hide Before;
    forall m, n | 0 <= m < n < |a + b| ensures Before((a + b)[m], (a + b)[n]) {
      if m < |a| && n >= |a| { assert (a + b)[m] in a && (a + b)[n] in b; }
    }
  }

  lemma {:induction false} SpotsOrdered(v: VNode, pick: VNode -> bool)
    ensures Ordered(Spots(v, pick))
    decreases v, 1
  {
    hide Spots, KidSpots;
    SpotsUnfold(v, pick);
    var below := if v.VGroup? || v.VElement? then KidSpots(v.kids, pick, |v.kids|)
                 else if v.VComponent? then Under(Body, Spots(v.rendered, pick))
                 else [];
    if v.VGroup? || v.VElement? {
      KidSpotsOrdered(v.kids, pick, |v.kids|);
      forall q | q in below ensures q != [] { KidSpotsFind(v.kids, pick, |v.kids|, q); }
    } else if v.VComponent? {
      SpotsOrdered(v.rendered, pick);
      UnderOrdered(Body, Spots(v.rendered, pick));
      forall q | q in below ensures q != [] { UnderFinds(Body, Spots(v.rendered, pick), q); }
    }
    OrderedJoin(Here(v, pick), below);
  }

  lemma {:induction false} KidSpotsOrdered(kids: seq<VNode>, pick: VNode -> bool, n: nat)
    requires n <= |kids|
    ensures Ordered(KidSpots(kids, pick, n))
    decreases kids, 0, n
  {
    hide Spots;
    if n == 0 {
    } else {
      KidSpotsOrdered(kids, pick, n - 1);
      SpotsOrdered(kids[n - 1], pick);
      UnderOrdered(Child(n - 1), Spots(kids[n - 1], pick));
      var last := Under(Child(n - 1), Spots(kids[n - 1], pick));
      forall p, q | p in KidSpots(kids, pick, n - 1) && q in last ensures Before(p, q) {
        KidSpotsFind(kids, pick, n - 1, p);
        UnderFinds(Child(n - 1), Spots(kids[n - 1], pick), q);
      }
      OrderedJoin(KidSpots(kids, pick, n - 1), last);
    }
  }

  lemma SpotsInOrder(v: VNode, pick: VNode -> bool)
    ensures InTreeOrder(Spots(v, pick), v, pick)
  {
    hide Spots, Before, Picked;
    forall p ensures p in Spots(v, pick) <==> Picked(v, pick, p) { SpotsFind(v, pick, p); }
    SpotsOrdered(v, pick);
  }

  lemma NodeUnder(v: VNode, turn: Turn, p: Spot)
    ensures (v.VGroup? || v.VElement?) && turn.Child? && turn.i < |v.kids| ==>
      NodeAt(v, [turn] + p) == NodeAt(v.kids[turn.i], p)
    ensures v.VComponent? && turn.Body? ==> NodeAt(v, [turn] + p) == NodeAt(v.rendered, p)
  {
    assert ([turn] + p)[1..] == p;
  }

  // ---------- Visits ----------

  const IsComponent: VNode -> bool := (u: VNode) => u.VComponent?

  /** The path a spot has: a point and the number of a child, or a point and the letter c. */
  function PathOf(path: string, p: Spot): string
    decreases |p|
  {
    if p == [] then path
    else PathOf(path + "." + (if p[0].Child? then Decimal(p[0].i) else "c"), p[1..])
  }

  /** The visit of an occurrence: its hook calls, its setter calls, and the key of its path and name. */
  predicate VisitFor(w: Visit, u: VNode, path: string) {
    && u.VComponent? && w.calls == u.calls && w.updates == u.updates
    && w.key == path + ":" + (if u.name == "" then "Component" else u.name)
  }

  ghost predicate VisitsMatch(visits: seq<Visit>, spots: seq<Spot>, v: VNode, path: string) {
    |visits| == |spots| && forall m :: 0 <= m < |spots| ==> VisitMatches(visits[m], spots[m], v, path)
  }

  predicate VisitMatches(w: Visit, p: Spot, v: VNode, path: string) {
    NodeAt(v, p).Some? && VisitFor(w, NodeAt(v, p).value, PathOf(path, p))
  }

  lemma VisitUnder(w: Visit, p: Spot, v: VNode, path: string, turn: Turn, u: VNode)
    requires VisitMatches(w, p, u, path + "." + (if turn.Child? then Decimal(turn.i) else "c"))
    requires ((v.VGroup? || v.VElement?) && turn.Child? && turn.i < |v.kids| && u == v.kids[turn.i]) ||
             (v.VComponent? && turn.Body? && u == v.rendered)
    ensures VisitMatches(w, [turn] + p, v, path)
  {
    NodeUnder(v, turn, p);
    assert ([turn] + p)[1..] == p;
  }

  lemma VisitsJoin(a: seq<Visit>, b: seq<Visit>, x: seq<Spot>, y: seq<Spot>, v: VNode, path: string)
    requires VisitsMatch(a, x, v, path) && VisitsMatch(b, y, v, path)
    ensures VisitsMatch(a + b, x + y, v, path)
  {
    hide VisitMatches;
  }

  lemma {:induction false} VisitsMatchSpots(v: VNode, path: string)
    ensures VisitsMatch(Visits(v, path), Spots(v, IsComponent), v, path)
    decreases v, 1
  {
    hide Spots, KidSpots, Visits, KidVisits, VisitMatches;
    SpotsUnfold(v, IsComponent);
    VisitsUnfold(v, path);
    if v.VGroup? || v.VElement? {
      KidVisitsMatch(v, path, |v.kids|);
    } else if v.VComponent? {
      VisitsMatchSpots(v.rendered, path + "." + "c");
      var below, spots := Visits(v.rendered, path + "." + "c"), Spots(v.rendered, IsComponent);
      forall m | 0 <= m < |spots| ensures VisitMatches(below[m], Under(Body, spots)[m], v, path) {
        VisitUnder(below[m], spots[m], v, path, Body, v.rendered);
      }
      OwnVisit(v, path);
      VisitsJoin([Visit(ComponentKey(path, v.name), v.calls, v.updates)], below, [[]], Under(Body, spots), v, path);
    }
  }

  lemma OwnVisit(v: VNode, path: string)
    requires v.VComponent?
    ensures VisitMatches(Visit(ComponentKey(path, v.name), v.calls, v.updates), [], v, path)
  {
    if v.name == "" {
      assert path + ":" + "Component" == path + (":" + "Component");
    } else {
      assert path + ":" + v.name == path + (":" + v.name);
    }
  }

  lemma VisitsUnfold(v: VNode, path: string)
    ensures (v.VGroup? || v.VElement?) ==> Visits(v, path) == KidVisits(v.kids, path, |v.kids|)
    ensures v.VComponent? ==>
      Visits(v, path) == [Visit(ComponentKey(path, v.name), v.calls, v.updates)] + Visits(v.rendered, path + "." + "c")
    ensures (v.VEmpty? || v.VText?) ==> Visits(v, path) == []
  {
    assert BodyPath(path) == path + "." + "c";
  }

  lemma {:induction false} KidVisitsMatch(v: VNode, path: string, n: nat)
    requires (v.VGroup? || v.VElement?) && n <= |v.kids|
    ensures VisitsMatch(KidVisits(v.kids, path, n), KidSpots(v.kids, IsComponent, n), v, path)
    decreases v, 0, n
  {
    hide Spots, Visits, VisitMatches;
    if n == 0 {
    } else {
      KidVisitsMatch(v, path, n - 1);
      var kid := v.kids[n - 1];
      VisitsMatchSpots(kid, ChildPath(path, n - 1));
      var below, spots := Visits(kid, ChildPath(path, n - 1)), Spots(kid, IsComponent);
      forall m | 0 <= m < |spots| ensures VisitMatches(below[m], Under(Child(n - 1), spots)[m], v, path) {
        VisitUnder(below[m], spots[m], v, path, Child(n - 1), kid);
      }
      VisitsJoin(KidVisits(v.kids, path, n - 1), below, KidSpots(v.kids, IsComponent, n - 1),
                 Under(Child(n - 1), spots), v, path);
    }
  }

  /** A render calls exactly the components that occur in the tree, below groups, elements and components,
      each once, in the order of the tree, with its calls and under the key of its spot and name. */
  lemma VisitsFollowTree(v: VNode, path: string) returns (spots: seq<Spot>)
    ensures InTreeOrder(spots, v, IsComponent)
    ensures |Visits(v, path)| == |spots|
    ensures forall m :: 0 <= m < |spots| ==> VisitMatches(Visits(v, path)[m], spots[m], v, path)
  {
    hide Spots, Visits, VisitMatches, InTreeOrder;
    spots := Spots(v, IsComponent);
    SpotsInOrder(v, IsComponent);
    VisitsMatchSpots(v, path);
  }
}
