/** Which document nodes survive a reconciliation. */
module KeptNodes {
  import opened Prelude
  import opened Dom
  import opened Reconciler

  /** The node reached from a child list by child positions, outermost first. */
  ghost function At(shapes: seq<Shape>, path: seq<nat>): Option<DomNode>
    decreases |path|
  {
    if path == [] || path[0] >= |shapes| then None
    else if |path| == 1 then Some(shapes[path[0]].node)
    else At(shapes[path[0]].kids, path[1..])
  }

  /** Both lists have a node there, of the same kind. */
  ghost predicate SameKindAt(ps: seq<Shape>, ns: seq<Shape>, path: seq<nat>) {
    At(ps, path).Some? && At(ns, path).Some? && At(ps, path).value.kind == At(ns, path).value.kind
  }

  /** The kinds agree at the position and at every ancestor below the common parent. */
  ghost predicate KindsAgree(ps: seq<Shape>, ns: seq<Shape>, path: seq<nat>) {
    forall n :: 1 <= n <= |path| ==> SameKindAt(ps, ns, path[..n])
  }

  lemma {:induction false} StepIn(ps: seq<Shape>, ns: seq<Shape>, path: seq<nat>)
    requires |path| > 1 && path[0] < |ps| && path[0] < |ns|
    ensures KindsAgree(ps, ns, path) <==>
      ps[path[0]].node.kind == ns[path[0]].node.kind && KindsAgree(ps[path[0]].kids, ns[path[0]].kids, path[1..])
  {
    var p, n := ps[path[0]], ns[path[0]];
    assert SameKindAt(ps, ns, path[..1]) <==> p.node.kind == n.node.kind;
    forall m | 1 <= m <= |path| - 1
      ensures SameKindAt(ps, ns, path[..m + 1]) <==> SameKindAt(p.kids, n.kids, path[1..][..m])
    {
      assert path[..m + 1][1..] == path[1..][..m];
    }
    if KindsAgree(ps, ns, path) {
      forall m | 1 <= m <= |path[1..]| ensures SameKindAt(p.kids, n.kids, path[1..][..m]) {
        assert SameKindAt(ps, ns, path[..m + 1]);
      }
    }
    if p.node.kind == n.node.kind && KindsAgree(p.kids, n.kids, path[1..]) {
      forall m | 1 <= m <= |path| ensures SameKindAt(ps, ns, path[..m]) {
        if m > 1 { assert SameKindAt(p.kids, n.kids, path[1..][..m - 1]); }
      }
    }
  }

  /** The merged list has the positions of the new one; each holds the old node exactly when the kinds
      agree down to it, and the new node otherwise. */
  lemma {:induction false} MergedAt(ps: seq<Shape>, ns: seq<Shape>, path: seq<nat>)
    requires path != []
    ensures At(MergeKids(ps, ns), path) == if KindsAgree(ps, ns, path) then At(ps, path) else At(ns, path)
    decreases |path|
  {
    var i := path[0];
    assert path[..1] == [i];
    if i < |ns| && i < |ps| {
      if |path| > 1 {
        StepIn(ps, ns, path);
        MergedAt(ps[i].kids, ns[i].kids, path[1..]);
      } else {
        assert path == path[..1];
        assert KindsAgree(ps, ns, path) <==> SameKindAt(ps, ns, path);
      }
    } else {
      assert !SameKindAt(ps, ns, path[..1]);
    }
  }

  lemma {:induction false} AtMember(shapes: seq<Shape>, path: seq<nat>)
    requires At(shapes, path).Some?
    ensures path[0] < |shapes| && At(shapes, path).value in Nodes(shapes[path[0]])
    ensures At(shapes, path).value in NodesOf(shapes)
    decreases |path|
  {
    hide Nodes, NodesOf;
    assert shapes[path[0]] in shapes;
    if |path| > 1 { AtMember(shapes[path[0]].kids, path[1..]); }
  }

  /** A node sits at one position only. */
  lemma {:induction false} AtUnique(shapes: seq<Shape>, p: seq<nat>, q: seq<nat>)
    requires AllSeparate(shapes)
    requires At(shapes, p).Some? && At(shapes, p) == At(shapes, q)
    ensures p == q
    decreases |p|
  {
    hide Nodes, NodesOf;
    AtMember(shapes, p);
    AtMember(shapes, q);
    assert p[0] == q[0];
    var s := shapes[p[0]];
    if |p| > 1 { AtMember(s.kids, p[1..]); }
    if |q| > 1 { AtMember(s.kids, q[1..]); }
    if |p| > 1 && |q| > 1 {
      AtUnique(s.kids, p[1..], q[1..]);
    }
    assert p == [p[0]] + p[1..] && q == [q[0]] + q[1..];
  }

  lemma KidExists(shapes: seq<Shape>, x: DomNode)
    requires x in NodesOf(shapes)
    ensures exists k :: k in shapes && x in Nodes(k)
  {
  }

  lemma PickKid(shapes: seq<Shape>, x: DomNode) returns (i: nat)
    requires x in NodesOf(shapes)
    ensures i < |shapes| && x in Nodes(shapes[i])
  {
    hide Nodes, NodesOf;
    KidExists(shapes, x);
    var k :| k in shapes && x in Nodes(k);
    i :| i < |shapes| && shapes[i] == k;
  }

  lemma RootOrBelow(s: Shape, x: DomNode)
    requires x in Nodes(s)
    ensures x == s.node || x in NodesOf(s.kids)
  {
    hide NodesOf;
  }

  lemma {:induction false} MemberAt(shapes: seq<Shape>, x: DomNode) returns (path: seq<nat>)
    requires x in NodesOf(shapes)
    ensures At(shapes, path) == Some(x)
    decreases shapes
  {
    hide Nodes, NodesOf;
    var i := PickKid(shapes, x);
    RootOrBelow(shapes[i], x);
    if x == shapes[i].node {
      path := [i];
    } else {
      var below := MemberAt(shapes[i].kids, x);
      path := [i] + below;
      assert path[1..] == below;
    }
  }

  /** An old node is still in the tree afterwards exactly when the kinds agree down to its position. */
  lemma OldNodeKept(ps: seq<Shape>, ns: seq<Shape>, path: seq<nat>)
    requires AllSeparate(ps) && NodesOf(ps) !! NodesOf(ns)
    requires At(ps, path).Some?
    ensures At(ps, path).value in NodesOf(MergeKids(ps, ns)) <==> KindsAgree(ps, ns, path)
  {
    hide Nodes, NodesOf;
    var x := At(ps, path).value;
    AtMember(ps, path);
    MergedAt(ps, ns, path);
    if KindsAgree(ps, ns, path) {
      AtMember(MergeKids(ps, ns), path);
    }
    if x in NodesOf(MergeKids(ps, ns)) {
      var q := MemberAt(MergeKids(ps, ns), x);
      MergedAt(ps, ns, q);
      if !KindsAgree(ps, ns, q) { AtMember(ns, q); }
      AtUnique(ps, path, q);
    }
  }

  // ---------- The merged tree is again a tree ----------

  lemma {:induction false} MergeSeparate(p: Shape, n: Shape)
    requires Separate(p) && Separate(n) && Nodes(p) !! Nodes(n)
    ensures Separate(Merge(p, n))
    decreases n, 0
  {
    if p.node.kind == n.node.kind {
      MergeKidsSeparate(p.kids, n.kids);
      MergeKidsNodes(p.kids, n.kids);
    }
  }

  lemma {:induction false} MergeKidsSeparate(ps: seq<Shape>, ns: seq<Shape>)
    requires AllSeparate(ps) && AllSeparate(ns) && NodesOf(ps) !! NodesOf(ns)
    ensures AllSeparate(MergeKids(ps, ns))
    decreases ns, 1
  {
    hide Nodes, NodesOf, Separate, Merge;
    var r := MergeKids(ps, ns);
    forall i | 0 <= i < |r| ensures Separate(r[i]) {
      assert ns[i] in ns;
      if i < |ps| {
        assert ps[i] in ps;
        MergeSeparate(ps[i], ns[i]);
      }
    }
    forall i, j | 0 <= i < j < |r| ensures Nodes(r[i]) !! Nodes(r[j]) {
      MergedPairApart(ps, ns, i, j);
    }
  }

  lemma MergedPairApart(ps: seq<Shape>, ns: seq<Shape>, i: nat, j: nat)
    requires AllSeparate(ps) && AllSeparate(ns) && NodesOf(ps) !! NodesOf(ns) && i < j < |ns|
    ensures Nodes(MergeKids(ps, ns)[i]) !! Nodes(MergeKids(ps, ns)[j])
  {
    hide Nodes, NodesOf, Separate, Merge;
    MergeKidNodes(ps, ns, i);
    MergeKidNodes(ps, ns, j);
    assert ns[i] in ns && ns[j] in ns && (i < |ps| ==> ps[i] in ps) && (j < |ps| ==> ps[j] in ps);
  }
}
