/** What a render of the dashboard is given: the vnode tree with every component already replaced by
    what its function returned this time, together with the hooks that function called. */
module VirtualTree {
  import opened Prelude
  import opened Dom

  /** Hook values and dependencies, compared by `Object.is`. */
  type Value = nat

  /** A call of a state setter: the component instance it was made for, the slot, the value to store. */
  datatype Update = Update(instance: nat, slot: nat, value: Value)

  datatype HookCall =
    | UseState(initial: Value)
    | UseEffect(deps: Option<seq<Value>>)
    | OtherHook

  datatype VNode =
    | VEmpty
    | VText(text: string)
    | VGroup(kids: seq<VNode>)
    | VElement(tag: string, props: seq<Prop>, kids: seq<VNode>)
    | VComponent(name: string, calls: seq<HookCall>, updates: seq<Update>, rendered: VNode)

  /** One own property of a props object, `children` left out. */
  datatype Prop = Prop(key: string, value: PropValue)

  predicate DistinctProps(props: seq<Prop>) {
    forall i, j :: 0 <= i < j < |props| ==> props[i].key != props[j].key
  }

  /** Props objects have each key once. */
  predicate WellFormed(v: VNode) {
    match v
    case VGroup(kids) => forall k :: k in kids ==> WellFormed(k)
    case VElement(_, props, kids) => DistinctProps(props) && forall k :: k in kids ==> WellFormed(k)
    case VComponent(_, _, _, rendered) => WellFormed(rendered)
    case _ => true
  }

  function PropMap(props: seq<Prop>): Props {
    if props == [] then map[] else PropMap(props[..|props| - 1])[props[|props| - 1].key := props[|props| - 1].value]
  }

  // ---------- What the page should show ----------

  const SVG := "http://www.w3.org/2000/svg"
  const XHTML := "http://www.w3.org/1999/xhtml"

  predicate IsSvg(tag: string) {
    tag in ["svg", "path", "rect", "circle", "ellipse", "defs", "linearGradient", "stop", "text"]
  }

  function KindOf(tag: string): Kind { ElementKind(tag, if IsSvg(tag) then SVG else XHTML) }

  function NormalizeAttr(key: string): string {
    if key == "strokeWidth" then "stroke-width"
    else if key == "strokeLinecap" then "stroke-linecap"
    else if key == "strokeLinejoin" then "stroke-linejoin"
    else if key == "strokeDasharray" then "stroke-dasharray"
    else if key == "strokeDashoffset" then "stroke-dashoffset"
    else if key == "stopColor" then "stop-color"
    else if key == "stopOpacity" then "stop-opacity"
    else if key == "textAnchor" then "text-anchor"
    else if key == "dominantBaseline" then "dominant-baseline"
    else if key == "fillRule" then "fill-rule"
    else if key == "clipRule" then "clip-rule"
    else key
  }

  /** `String(value)` for what is neither null nor false. */
  function TextOf(value: PropValue): string {
    match value
    case Plain(text) => text
    case Flag => "true"
    case Handler(_) => "function"
    case _ => "[object Object]"
  }

  /** The attribute a prop becomes, if it becomes one. */
  function AttributeFor(p: Prop): Option<(string, string)> {
    if p.value.Absent? then None
    else if p.key == "className" then Some(("class", TextOf(p.value)))
    else if p.key == "htmlFor" then Some(("for", TextOf(p.value)))
    else if p.key == "ref" && p.value.RefCell? then None
    else if p.key == "style" && p.value.Styles? then (if p.value.css == "" then None else Some(("style", p.value.css)))
    else if IsListener(p.key, p.value) then None
    else if p.key == "value" || p.key == "checked" then None
    else Some((NormalizeAttr(p.key), if p.value.Flag? then "" else TextOf(p.value)))
  }

  function Attributes(props: seq<Prop>): map<string, string> {
    if props == [] then map[]
    else
      var before := Attributes(props[..|props| - 1]);
      match AttributeFor(props[|props| - 1])
      case None => before
      case Some(a) => before[a.0 := a.1]
  }

  /** The nodes a vnode stands for: none, one or several, since groups leave no node of their own. */
  function Expected(v: VNode): seq<Tree> {
    match v
    case VEmpty => [Tree(TextKind, "", map[], map[], [])]
    case VText(text) => [Tree(TextKind, text, map[], map[], [])]
    case VGroup(kids) => ExpectedAll(kids)
    case VElement(tag, props, kids) =>
      [Tree(KindOf(tag), "", DropEmptyStyle(Attributes(props)), PropMap(props), ExpectedAll(kids))]
    case VComponent(_, _, _, rendered) => Expected(rendered)
  }

  function ExpectedAll(vs: seq<VNode>): seq<Tree> {
    if vs == [] then [] else ExpectedAll(vs[..|vs| - 1]) + Expected(vs[|vs| - 1])
  }

  /** How often each ref object is used. */
  function Uses(v: VNode): multiset<nat> {
    match v
    case VGroup(kids) => UsesAll(kids)
    case VElement(_, props, kids) =>
      (if HasRef(PropMap(props)) then multiset{PropMap(props)["ref"].id} else multiset{}) + UsesAll(kids)
    case VComponent(_, _, _, rendered) => Uses(rendered)
    case _ => multiset{}
  }

  function UsesAll(vs: seq<VNode>): multiset<nat> {
    if vs == [] then multiset{} else UsesAll(vs[..|vs| - 1]) + Uses(vs[|vs| - 1])
  }

  predicate IsGroup(v: VNode) {
    v.VGroup? || (v.VComponent? && IsGroup(v.rendered))
  }
}
