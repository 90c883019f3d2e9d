/** What the nodes a vnode tree asks for look like, read off the tree occurrence by occurrence. */
module VnodeTrees {
  import opened Prelude
  import opened Dom
  import opened VirtualTree
  import opened VnodePlaces

  // ---------- Props and attributes ----------

  /** `String` of a prop's value. */
  predicate Says(x: PropValue, s: string) {
    || (x.Plain? && s == x.text)
    || (x.Flag? && s == "true")
    || (x.Handler? && s == "function")
    || ((x.RefCell? || x.Styles?) && s == "[object Object]")
  }

  const HYPHENED: map<string, string> := map[
    "strokeWidth" := "stroke-width", "strokeLinecap" := "stroke-linecap", "strokeLinejoin" := "stroke-linejoin",
    "strokeDasharray" := "stroke-dasharray", "strokeDashoffset" := "stroke-dashoffset",
    "stopColor" := "stop-color", "stopOpacity" := "stop-opacity", "textAnchor" := "text-anchor",
    "dominantBaseline" := "dominant-baseline", "fillRule" := "fill-rule", "clipRule" := "clip-rule"]

  /** The prop makes the attribute `a` with text `s`. */
  predicate Makes(p: Prop, a: string, s: string) {
    && !p.value.Absent?
    && (p.key == "className" ==> a == "class" && Says(p.value, s))
    && (p.key == "htmlFor" ==> a == "for" && Says(p.value, s))
    && p.key !in {"value", "checked"}
    && !(p.key == "ref" && p.value.RefCell?)
    && !("on" <= p.key && p.value.Handler?)
    && (p.key == "style" && p.value.Styles? ==> a == "style" && s == p.value.css && s != "")
    && (p.key !in {"className", "htmlFor"} && !(p.key == "style" && p.value.Styles?) ==>
          && a == (if p.key in HYPHENED then HYPHENED[p.key] else p.key)
          && (if p.value.Flag? then s == "" else Says(p.value, s)))
  }

  /** Some prop makes the attribute with this text and no later one makes it again. */
  ghost predicate Lasting(props: seq<Prop>, a: string, s: string) {
    exists i :: 0 <= i < |props| && Makes(props[i], a, s) && NotRemade(props, i, a)
  }

  ghost predicate NotRemade(props: seq<Prop>, i: nat, a: string) {
    forall j, t :: i < j < |props| ==> !Makes(props[j], a, t)
  }

  lemma HyphensMean(key: string)
    ensures NormalizeAttr(key) == if key in HYPHENED then HYPHENED[key] else key
  {
  }

  lemma AttributeForMeans(p: Prop, a: string, s: string)
    ensures AttributeFor(p) == Some((a, s)) <==> Makes(p, a, s)
  {
    hide NormalizeAttr;
    HyphensMean(p.key);
    assert |p.key| >= 2 && p.key[..2] == "on" <==> "on" <= p.key;
    if p.value.Handler? && p.key in {"className", "htmlFor", "ref", "style", "value", "checked"} {
      assert p.key[0] != 'o';
    }
  }

  lemma {:induction false} AttributesMean(props: seq<Prop>, a: string, s: string)
    ensures a in Attributes(props) && Attributes(props)[a] == s <==> Lasting(props, a, s)
  {
    hide AttributeFor, Makes;
    if props == [] {
    } else {
      var n := |props| - 1;
      var before := props[..n];
      AttributesMean(before, a, s);
      forall b, t ensures AttributeFor(props[n]) == Some((b, t)) <==> Makes(props[n], b, t) {
        AttributeForMeans(props[n], b, t);
      }
      if Lasting(before, a, s) && forall t :: !Makes(props[n], a, t) {
        var i :| 0 <= i < n && Makes(before[i], a, s) && NotRemade(before, i, a);
        assert Makes(props[i], a, s) && NotRemade(props, i, a);
      }
      if Makes(props[n], a, s) {
        assert NotRemade(props, n, a);
      }
      if Lasting(props, a, s) {
        var i :| 0 <= i < |props| && Makes(props[i], a, s) && NotRemade(props, i, a);
        if i < n {
          assert Makes(before[i], a, s) && NotRemade(before, i, a);
        }
      }
    }
  }

  lemma {:induction false} PropMapMeans(props: seq<Prop>, key: string, x: PropValue)
    requires DistinctProps(props)
    ensures key in PropMap(props) && PropMap(props)[key] == x <==> Prop(key, x) in props
  {
    if props == [] {
    } else {
      var n := |props| - 1;
      PropMapMeans(props[..n], key, x);
      assert props == props[..n] + [props[n]];
    }
  }

  // ---------- Nodes ----------

  predicate DrawnInSvg(tag: string) {
    tag in {"svg", "path", "rect", "circle", "ellipse", "defs", "linearGradient", "stop", "text"}
  }

  /** The node a text or an element is shown as. */
  ghost predicate Looks(t: Tree, u: VNode) {
    match u
    case VEmpty => t.kind == TextKind && t.text == ""
    case VText(text) => t.kind == TextKind && t.text == text
    case VElement(tag, props, _) =>
      && t.kind == ElementKind(tag, if DrawnInSvg(tag) then "http://www.w3.org/2000/svg"
                                    else "http://www.w3.org/1999/xhtml")
      && (forall key, x :: key in t.props && t.props[key] == x <==> Prop(key, x) in props)
      && forall a, s ::
        a in t.attributes && t.attributes[a] == s <==> Lasting(props, a, s) && !(a == "style" && s == "")
    case _ => false
  }

  /** How many elements are above a spot. */
  function Depth(v: VNode, p: Spot): nat
    requires NodeAt(v, p).Some?
    decreases |p|
  {
    if p == [] then 0
    else (if v.VElement? then 1 else 0) + Depth(if v.VComponent? then v.rendered else v.kids[p[0].i], p[1..])
  }

  /** The nodes of some trees in the order of the tree, each with the number of nodes above it. */
  datatype Line = Line(depth: nat, node: Tree)

  function Lines(trees: seq<Tree>, depth: nat): seq<Line> {
    if trees == [] then []
    else
      var last := trees[|trees| - 1];
      Lines(trees[..|trees| - 1], depth) + ([Line(depth, last)] + Lines(last.kids, depth + 1))
  }

  lemma {:induction false} LinesJoin(a: seq<Tree>, b: seq<Tree>, depth: nat)
    ensures Lines(a + b, depth) == Lines(a, depth) + Lines(b, depth)
  {
    if b == [] {
      assert a + b == a;
    } else {
      var last := b[|b| - 1];
      LinesJoin(a, b[..|b| - 1], depth);
      assert (a + b)[..|a + b| - 1] == a + b[..|b| - 1];
      assert Lines(b, depth) == Lines(b[..|b| - 1], depth) + ([Line(depth, last)] + Lines(last.kids, depth + 1));
    }
  }

  const LeavesNode: VNode -> bool := (u: VNode) => u.VEmpty? || u.VText? || u.VElement?

  ghost predicate LineFits(line: Line, p: Spot, v: VNode, depth: nat) {
    NodeAt(v, p).Some? && line.depth == depth + Depth(v, p) && Looks(line.node, NodeAt(v, p).value)
  }

  ghost predicate LinesFit(lines: seq<Line>, spots: seq<Spot>, v: VNode, depth: nat) {
    |lines| == |spots| && forall m :: 0 <= m < |spots| ==> LineFits(lines[m], spots[m], v, depth)
  }

  lemma LinesUnder(lines: seq<Line>, spots: seq<Spot>, v: VNode, depth: nat, turn: Turn, u: VNode)
    requires LinesFit(lines, spots, u, if v.VElement? then depth + 1 else depth)
    requires ((v.VGroup? || v.VElement?) && turn.Child? && turn.i < |v.kids| && u == v.kids[turn.i]) ||
             (v.VComponent? && turn.Body? && u == v.rendered)
    ensures LinesFit(lines, Under(turn, spots), v, depth)
  {
    hide Looks;
    forall m | 0 <= m < |spots| ensures LineFits(lines[m], Under(turn, spots)[m], v, depth) {
      assert LineFits(lines[m], spots[m], u, if v.VElement? then depth + 1 else depth);
      NodeUnder(v, turn, spots[m]);
      assert ([turn] + spots[m])[1..] == spots[m];
    }
  }

  lemma LinesJoinFit(a: seq<Line>, b: seq<Line>, x: seq<Spot>, y: seq<Spot>, v: VNode, depth: nat)
    requires LinesFit(a, x, v, depth) && LinesFit(b, y, v, depth)
    ensures LinesFit(a + b, x + y, v, depth)
  {
    hide LineFits;
  }

  lemma {:induction false} LinesFitSpots(v: VNode, depth: nat)
    requires WellFormed(v)
    ensures LinesFit(Lines(Expected(v), depth), Spots(v, LeavesNode), v, depth)
    decreases v, 1
  {
    hide Spots, KidSpots, Expected, ExpectedAll, Lines, LinesFit;
    SpotsUnfold(v, LeavesNode);
    ExpectedUnfold(v);
    if v.VGroup? {
      KidLinesFit(v, |v.kids|, depth);
      assert v.kids[..|v.kids|] == v.kids;
      var spots := KidSpots(v.kids, LeavesNode, |v.kids|);
      assert Spots(v, LeavesNode) == [] + spots == spots;
    } else if v.VElement? {
      KidLinesFit(v, |v.kids|, depth);
      assert v.kids[..|v.kids|] == v.kids;
      OwnLineFirst(v, ExpectedAll(v.kids), KidSpots(v.kids, LeavesNode, |v.kids|), depth);
    } else if v.VComponent? {
      LinesFitSpots(v.rendered, depth);
      var spots := Under(Body, Spots(v.rendered, LeavesNode));
      LinesUnder(Lines(Expected(v.rendered), depth), Spots(v.rendered, LeavesNode), v, depth, Body, v.rendered);
      assert Spots(v, LeavesNode) == [] + spots == spots;
    } else {
      OwnLineFirst(v, [], [], depth);
      assert Spots(v, LeavesNode) == [[]] + [];
    }
  }

  lemma OwnLineFirst(v: VNode, kids: seq<Tree>, below: seq<Spot>, depth: nat)
    requires WellFormed(v) && (v.VEmpty? || v.VText? || v.VElement?)
    requires |Expected(v)| == 1 && Expected(v)[0].kids == kids
    requires (kids == [] && below == []) || LinesFit(Lines(kids, depth + 1), below, v, depth)
    ensures LinesFit(Lines(Expected(v), depth), [[]] + below, v, depth)
  {
    hide Expected, Lines, LineFits;
    OwnLine(v, depth);
    OneTree(Expected(v)[0], depth);
    assert Expected(v) == [Expected(v)[0]];
    LinesJoinFit([Line(depth, Expected(v)[0])], Lines(kids, depth + 1), [[]], below, v, depth);
  }

  lemma ExpectedUnfold(v: VNode)
    ensures v.VGroup? ==> Expected(v) == ExpectedAll(v.kids)
    ensures v.VElement? ==> |Expected(v)| == 1 && Expected(v)[0].kids == ExpectedAll(v.kids)
    ensures v.VComponent? ==> Expected(v) == Expected(v.rendered)
    ensures (v.VEmpty? || v.VText?) ==> |Expected(v)| == 1 && Expected(v)[0].kids == []
  {
  }

  lemma OneTree(t: Tree, depth: nat)
    ensures Lines([t], depth) == [Line(depth, t)] + Lines(t.kids, depth + 1)
    ensures Lines([], depth + 1) == []
  {
    assert [t][..0] == [];
  }

  lemma OwnLine(v: VNode, depth: nat)
    requires WellFormed(v) && (v.VEmpty? || v.VText? || v.VElement?) && |Expected(v)| == 1
    ensures LineFits(Line(depth, Expected(v)[0]), [], v, depth)
  {
    if v.VElement? {
      hide Attributes, PropMap, Lasting;
      var t := Expected(v)[0];
      forall key, x ensures key in t.props && t.props[key] == x <==> Prop(key, x) in v.props {
        PropMapMeans(v.props, key, x);
      }
      forall a, s
        ensures a in t.attributes && t.attributes[a] == s <==> Lasting(v.props, a, s) && !(a == "style" && s == "")
      {
        AttributesMean(v.props, a, s);
      }
    }
  }

  lemma {:induction false} KidLinesFit(v: VNode, n: nat, depth: nat)
    requires (v.VGroup? || v.VElement?) && n <= |v.kids| && WellFormed(v)
    ensures LinesFit(Lines(ExpectedAll(v.kids[..n]), if v.VElement? then depth + 1 else depth),
                     KidSpots(v.kids, LeavesNode, n), v, depth)
    decreases v, 0, n
  {
    hide Spots, Expected, LineFits;
    var below := if v.VElement? then depth + 1 else depth;
    if n == 0 {
    } else {
      hide Lines;
      KidLinesFit(v, n - 1, depth);
      var kid := v.kids[n - 1];
      assert v.kids[..n][..n - 1] == v.kids[..n - 1];
      LinesJoin(ExpectedAll(v.kids[..n - 1]), Expected(kid), below);
      LinesFitSpots(kid, below);
      var lines, spots := Lines(Expected(kid), below), Spots(kid, LeavesNode);
      LinesUnder(lines, spots, v, depth, Child(n - 1), kid);
      LinesJoinFit(Lines(ExpectedAll(v.kids[..n - 1]), below), lines, KidSpots(v.kids, LeavesNode, n - 1),
                   Under(Child(n - 1), spots), v, depth);
    }
  }

  /** The nodes a vnode should leave are its texts and elements, each once, in the order of the tree and as deep
      as it has elements above it; groups and components leave none of their own. */
  lemma ExpectedFollowsTree(v: VNode) returns (spots: seq<Spot>)
    requires WellFormed(v)
    ensures InTreeOrder(spots, v, LeavesNode)
    ensures |Lines(Expected(v), 0)| == |spots|
    ensures forall m :: 0 <= m < |spots| ==> LineFits(Lines(Expected(v), 0)[m], spots[m], v, 0)
  {
    hide Spots, Expected, Lines, LineFits, InTreeOrder;
    spots := Spots(v, LeavesNode);
    SpotsInOrder(v, LeavesNode);
    LinesFitSpots(v, 0);
  }

  // ---------- Ref objects ----------

  function HoldsRef(id: nat): VNode -> bool { (u: VNode) => u.VElement? && Prop("ref", RefCell(id)) in u.props }

  lemma {:induction false} UsesMatchSpots(v: VNode, id: nat)
    requires WellFormed(v)
    ensures Uses(v)[id] == |Spots(v, HoldsRef(id))|
    decreases v, 1
  {
    hide Spots, KidSpots, UsesAll;
    SpotsUnfold(v, HoldsRef(id));
    if v.VGroup? || v.VElement? {
      KidUsesMatch(v, |v.kids|, id);
      assert v.kids[..|v.kids|] == v.kids;
      if v.VElement? { PropMapMeans(v.props, "ref", RefCell(id)); }
    } else if v.VComponent? {
      UsesMatchSpots(v.rendered, id);
    }
  }

  lemma {:induction false} KidUsesMatch(v: VNode, n: nat, id: nat)
    requires (v.VGroup? || v.VElement?) && n <= |v.kids| && WellFormed(v)
    ensures UsesAll(v.kids[..n])[id] == |KidSpots(v.kids, HoldsRef(id), n)|
    decreases v, 0, n
  {
    hide Spots, Uses;
    if n == 0 {
    } else {
      KidUsesMatch(v, n - 1, id);
      UsesMatchSpots(v.kids[n - 1], id);
      assert v.kids[..n][..n - 1] == v.kids[..n - 1];
    }
  }

  /** A ref object is used once exactly when one element of the tree has it as its ref. */
  lemma UsesCount(v: VNode, id: nat) returns (spots: seq<Spot>)
    requires WellFormed(v)
    ensures InTreeOrder(spots, v, HoldsRef(id))
    ensures Uses(v)[id] == |spots|
  {
    hide Spots, Uses, InTreeOrder;
    spots := Spots(v, HoldsRef(id));
    SpotsInOrder(v, HoldsRef(id));
    UsesMatchSpots(v, id);
  }
}
