/** The part of the browser's document that the dashboard runtime changes in place, and a ghost
    description of which node sits where. */
module Dom {

  datatype Kind = TextKind | ElementKind(localName: string, namespace: string) | FragmentKind

  /** A property value as the runtime tells them apart: a function or ref object, known by identity; a
      style object, known by its CSS text; `true`; null, undefined or false; anything else as text. */
  datatype PropValue = Handler(f: nat) | RefCell(id: nat) | Styles(css: string) | Flag | Absent | Plain(text: string)

  type Props = map<string, PropValue>

  function Lower(c: char): char {
    if 'A' <= c <= 'Z' then (c as int + 32) as char else c
  }

  function ToLower(s: string): string {
    seq(|s|, i requires 0 <= i < |s| => Lower(s[i]))
  }

  predicate IsListener(key: string, value: PropValue) {
    |key| >= 2 && key[..2] == "on" && value.Handler?
  }

  function EventName(key: string): string
    requires |key| >= 2
  {
    ToLower(key[2..])
  }

  /** The listeners a set of props asks for: event name and function. */
  function Handlers(props: Props): set<(string, nat)> { HandlersAmong(props, props.Keys) }

  function HandlersAmong(props: Props, keys: set<string>): set<(string, nat)> {
    set k | k in keys && k in props && IsListener(k, props[k]) :: (EventName(k), props[k].f)
  }

  /** `s` is the prop's name without its leading "on" and with its capitals made small. */
  predicate Hears(key: string, s: string) {
    && |key| >= 2 && key[0] == 'o' && key[1] == 'n' && |s| == |key| - 2
    && forall i :: 0 <= i < |s| ==> s[i] as int == key[i + 2] as int + (if 'A' <= key[i + 2] <= 'Z' then 32 else 0)
  }

  /** Some prop on… holds the function `f`, for the event `s`. */
  ghost predicate AsksFor(props: Props, s: string, f: nat) {
    exists key :: key in props && props[key] == Handler(f) && Hears(key, s)
  }

  /** The listeners are exactly those the props ask for. */
  ghost predicate Listens(listeners: set<(string, nat)>, props: Props) {
    forall s: string, f: nat :: (s, f) in listeners <==> AsksFor(props, s, f)
  }

  lemma EventNameMeans(key: string, s: string)
    requires |key| >= 2 && key[..2] == "on"
    ensures s == EventName(key) <==> Hears(key, s)
  {
    assert key[0] == key[..2][0] == 'o' && key[1] == key[..2][1] == 'n';
    forall i | 0 <= i < |key| - 2
      ensures EventName(key)[i] as int == key[i + 2] as int + (if 'A' <= key[i + 2] <= 'Z' then 32 else 0)
    {
      assert key[2..][i] == key[i + 2];
    }
  }

  lemma HandlersMean(props: Props)
    ensures Listens(Handlers(props), props)
  {
    hide EventName, Hears;
    forall s: string, f: nat ensures (s, f) in Handlers(props) <==> AsksFor(props, s, f) {
      forall key | key in props && props[key] == Handler(f)
        ensures Hears(key, s) <==> IsListener(key, props[key]) && EventName(key) == s
      {
        HearsMeans(key, s);
      }
    }
  }

  lemma HearsMeans(key: string, s: string)
    ensures Hears(key, s) <==> |key| >= 2 && key[..2] == "on" && EventName(key) == s
  {
    if |key| >= 2 && key[..2] == "on" { EventNameMeans(key, s); }
  }

  predicate HasRef(props: Props) { "ref" in props && props["ref"].RefCell? }

  /** An empty style attribute counts as no style attribute. */
  function DropEmptyStyle(attributes: map<string, string>): map<string, string> {
    if "style" in attributes && attributes["style"] == "" then attributes - {"style"} else attributes
  }

  /** The `current` fields of all ref objects, by identity. `once` is the set of ref objects that the
      tree being rendered uses once; about the others nothing is claimed. */
  class RefTable {
    var current: map<nat, DomNode>
    ghost var once: set<nat>

    constructor ()
      ensures current == map[] && once == {}
    {
      current, once := map[], {};
    }

    ghost function State(): Cells
      reads this
    {
      Cells(current, once)
    }
  }

  datatype Cells = Cells(at: map<nat, DomNode>, once: set<nat>)

  function Without<T(==)>(s: seq<T>, x: T): (r: seq<T>) {
    if s == [] then [] else if s[0] == x then s[1..] else [s[0]] + Without(s[1..], x)
  }

  lemma {:induction false} WithoutFirst<T>(before: seq<T>, x: T, after: seq<T>)
    requires x !in before
    ensures Without(before + ([x] + after), x) == before + after
  {
    var s := before + ([x] + after);
    if before == [] {
      assert s == [x] + after && before + after == after;
    } else {
      WithoutFirst(before[1..], x, after);
      assert s[1..] == before[1..] + ([x] + after);
      assert before + after == [before[0]] + (before[1..] + after);
    }
  }

  class DomNode {
    const kind: Kind
    var nodeValue: string
    var attributes: map<string, string>
    var listeners: set<(string, nat)>
    var vprops: Props
    var parent: DomNode?
    var childNodes: seq<DomNode>

    constructor (kind: Kind, nodeValue: string)
      ensures this.kind == kind && this.nodeValue == nodeValue
      ensures attributes == map[] && listeners == {} && vprops == map[] && parent == null && childNodes == []
    {
      this.kind, this.nodeValue := kind, nodeValue;
      attributes, listeners, vprops, parent, childNodes := map[], {}, map[], null, [];
    }

    /** Takes the node out of the list of the parent it has, as every insertion does first. */
    method Detach()
      modifies this`parent, (if parent != null then {parent} else {})`childNodes
      ensures parent == null
      ensures old(parent) != null ==> old(parent).childNodes == Without(old(parent.childNodes), this)
    {
      if parent != null {
        parent.childNodes := Without(parent.childNodes, this);
        parent := null;
      }
    }

    method AppendChild(child: DomNode)
      requires child.parent != this
      modifies this`childNodes, child`parent, (if child.parent != null then {child.parent} else {})`childNodes
      ensures childNodes == old(childNodes) + [child]
      ensures child.parent == this
      ensures old(child.parent) != null ==> old(child.parent).childNodes == Without(old(child.parent.childNodes), child)
    {
      child.Detach();
      childNodes := childNodes + [child];
      child.parent := this;
    }

    method RemoveChild(child: DomNode)
      requires child in childNodes
      modifies this`childNodes, child`parent
      ensures childNodes == Without(old(childNodes), child)
      ensures child.parent == null
    {
      childNodes := Without(childNodes, child);
      child.parent := null;
    }

    method ReplaceChild(next: DomNode, current: DomNode, ghost i: nat)
      requires next != current && next.parent != this
      requires i < |childNodes| && childNodes[i] == current
      requires forall j :: 0 <= j < |childNodes| && j != i ==> childNodes[j] != current
      modifies this`childNodes, next`parent, current`parent,
        (if next.parent != null then {next.parent} else {})`childNodes
      ensures childNodes == old(childNodes)[i := next]
      ensures next.parent == this && current.parent == null
      ensures old(next.parent) != null ==> old(next.parent).childNodes == Without(old(next.parent.childNodes), next)
    {
      next.Detach();
      var at := 0;
      while childNodes[at] != current
        invariant at <= i
        decreases i - at
      {
        at := at + 1;
      }
      childNodes := childNodes[at := next];
      next.parent := this;
      current.parent := null;
    }
  }

  // ---------- Where the nodes are ----------

  /** A node and, in order, what is below it. */
  datatype Shape = Shape(node: DomNode, kids: seq<Shape>)

  ghost function Nodes(s: Shape): (r: set<DomNode>)
    ensures s.node in r && NodesOf(s.kids) <= r
  {
    {s.node} + NodesOf(s.kids)
  }

  ghost function NodesOf(shapes: seq<Shape>): (r: set<DomNode>)
    ensures forall k :: k in shapes ==> Nodes(k) <= r
  {
    set k, n | k in shapes && n in Nodes(k) :: n
  }

  /** The nodes of a shape as a value of their own, which tells the verifier that they exist by now. */
  lemma Footprint(s: Shape) returns (nodes: set<DomNode>)
    ensures nodes == Nodes(s)
  {
    nodes := Nodes(s);
  }

  lemma FootprintOf(shapes: seq<Shape>) returns (nodes: set<DomNode>)
    ensures nodes == NodesOf(shapes)
  {
    nodes := NodesOf(shapes);
  }

  /** No node is at two places. */
  ghost predicate Separate(s: Shape) {
    s.node !in NodesOf(s.kids) && AllSeparate(s.kids)
  }

  ghost predicate AllSeparate(shapes: seq<Shape>) {
    && (forall i :: 0 <= i < |shapes| ==> Separate(shapes[i]))
    && (forall i, j :: 0 <= i < j < |shapes| ==> Nodes(shapes[i]) !! Nodes(shapes[j]))
  }

  ghost function Roots(shapes: seq<Shape>): (r: seq<DomNode>)
    ensures |r| == |shapes|
    ensures forall i :: 0 <= i < |shapes| ==> r[i] == shapes[i].node
  {
    seq(|shapes|, i requires 0 <= i < |shapes| => shapes[i].node)
  }

  /** The document's own pointers agree with the shape. */
  ghost predicate Linked(s: Shape)
    reads Nodes(s)`childNodes, NodesOf(s.kids)`parent
    decreases s
  {
    && s.node.childNodes == Roots(s.kids)
    && (s.node.kind.TextKind? ==> s.kids == [])
    && forall k :: k in s.kids ==> k.node.parent == s.node && Linked(k)
  }

  /** What a subtree shows. */
  datatype Tree = Tree(kind: Kind, text: string, attributes: map<string, string>, props: Props, kids: seq<Tree>)

  ghost function View(s: Shape): Tree
    reads Nodes(s)`nodeValue, Nodes(s)`attributes, Nodes(s)`vprops
    decreases s
  {
    var n := s.node;
    if n.kind.TextKind? then Tree(n.kind, n.nodeValue, map[], map[], ViewAll(s.kids))
    else Tree(n.kind, "", DropEmptyStyle(n.attributes), n.vprops, ViewAll(s.kids))
  }

  ghost function ViewAll(shapes: seq<Shape>): (r: seq<Tree>)
    reads NodesOf(shapes)`nodeValue, NodesOf(shapes)`attributes, NodesOf(shapes)`vprops
    decreases shapes
    ensures |r| == |shapes|
    ensures forall i :: 0 <= i < |shapes| ==> r[i] == View(shapes[i])
  {
    if shapes == [] then [] else [View(shapes[0])] + ViewAll(shapes[1..])
  }

  /** The listeners attached are exactly those the node's props ask for. */
  ghost predicate Wired(nodes: set<DomNode>)
    reads nodes`listeners, nodes`vprops
  {
    forall n :: n in nodes ==> n.listeners == Handlers(n.vprops)
  }

  /** A ref object used once holds the element that uses it; text has no props. */
  ghost predicate RefHeld(n: DomNode, cells: Cells)
    reads n`vprops
  {
    !n.kind.TextKind? && HasRef(n.vprops) && n.vprops["ref"].id in cells.once ==>
      n.vprops["ref"].id in cells.at && cells.at[n.vprops["ref"].id] == n
  }

  ghost predicate RefsHeld(nodes: set<DomNode>, cells: Cells)
    reads nodes`vprops
  {
    forall n :: n in nodes ==> RefHeld(n, cells)
  }
}
