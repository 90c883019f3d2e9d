/** The keys under which one render looks up component state. */
module PathKeys {
  import opened VirtualTree

  datatype Visit = Visit(key: string, calls: seq<HookCall>, updates: seq<Update>)

  // ---------- Decimal numbers ----------

  function Digit(d: nat): char
    requires d < 10
  {
    '0' + d as char
  }

  function Decimal(n: nat): string {
    if n < 10 then [Digit(n)] else Decimal(n / 10) + [Digit(n % 10)]
  }

  function NumberOf(s: string): int {
    if s == [] then 0 else NumberOf(s[..|s| - 1]) * 10 + (s[|s| - 1] as int - '0' as int)
  }

  lemma {:induction false} DecimalReads(n: nat)
    ensures NumberOf(Decimal(n)) == n
    ensures forall c :: c in Decimal(n) ==> '0' <= c <= '9'
  {
    if n >= 10 {
      DecimalReads(n / 10);
      var s := Decimal(n);
      assert s[..|s| - 1] == Decimal(n / 10);
    } else {
      assert Decimal(n)[..0] == [];
    }
  }

  // ---------- Keys ----------

  function ChildPath(path: string, i: nat): string { path + "." + Decimal(i) }

  function BodyPath(path: string): string { path + ".c" }

  function ComponentKey(path: string, name: string): string {
    path + ":" + if name == "" then "Component" else name
  }

  /** The component functions `toDom` calls, in order. */
  function Visits(v: VNode, path: string): seq<Visit>
    decreases v, 1
  {
    match v
    case VGroup(kids) => KidVisits(kids, path, |kids|)
    case VElement(_, _, kids) => KidVisits(kids, path, |kids|)
    case VComponent(name, calls, updates, rendered) =>
      [Visit(ComponentKey(path, name), calls, updates)] + Visits(rendered, BodyPath(path))
    case _ => []
  }

  /** The visits below the first `n` children. */
  function KidVisits(kids: seq<VNode>, path: string, n: nat): seq<Visit>
    requires n <= |kids|
    decreases kids, 0, n
  {
    if n == 0 then [] else KidVisits(kids, path, n - 1) + Visits(kids[n - 1], ChildPath(path, n - 1))
  }

  // ---------- No two occurrences share a key ----------

  /** The key continues the path, with a colon or another step. */
  predicate Below(key: string, path: string) {
    |key| > |path| && key[..|path|] == path && (key[|path|] == ':' || key[|path|] == '.')
  }

  lemma BelowShorter(key: string, path: string, step: string)
    requires Below(key, path + "." + step)
    ensures Below(key, path) && key[|path|] == '.'
  {
    var longer := path + "." + step;
    assert key[..|path|] == key[..|longer|][..|path|] == path;
    assert key[|path|] == longer[|path|];
  }

  lemma {:induction false} VisitsBelow(v: VNode, path: string)
    ensures forall w :: w in Visits(v, path) ==> Below(w.key, path)
    decreases v, 1
  {
    match v
    case VGroup(kids) => KidVisitsBelow(kids, path, |kids|);
    case VElement(_, _, kids) => KidVisitsBelow(kids, path, |kids|);
    case VComponent(name, calls, updates, rendered) =>
      VisitsBelow(rendered, BodyPath(path));
      forall w | w in Visits(rendered, BodyPath(path)) ensures Below(w.key, path) {
        assert BodyPath(path) == path + "." + "c";
        BelowShorter(w.key, path, "c");
      }
    case _ =>
  }

  lemma {:induction false} KidVisitsBelow(kids: seq<VNode>, path: string, n: nat)
    requires n <= |kids|
    ensures forall w :: w in KidVisits(kids, path, n) ==> Below(w.key, path)
    ensures forall w :: w in KidVisits(kids, path, n) ==> exists i: nat :: i < n && Below(w.key, ChildPath(path, i))
    decreases kids, 0, n
  {
    if n == 0 {
    } else {
      KidVisitsBelow(kids, path, n - 1);
      VisitsBelow(kids[n - 1], ChildPath(path, n - 1));
      forall w | w in Visits(kids[n - 1], ChildPath(path, n - 1)) ensures Below(w.key, path) {
        BelowShorter(w.key, path, Decimal(n - 1));
      }
    }
  }

  lemma StepIsDigits(path: string, i: nat, k: nat)
    requires |path| < k < |ChildPath(path, i)|
    ensures '0' <= ChildPath(path, i)[k] <= '9'
  {
    DecimalReads(i);
    assert ChildPath(path, i)[k] == Decimal(i)[k - |path| - 1];
    assert ChildPath(path, i)[k] in Decimal(i);
  }

  lemma NotBelowBoth(key: string, path: string, i: nat, j: nat)
    requires Below(key, ChildPath(path, i)) && Below(key, ChildPath(path, j))
    ensures |ChildPath(path, i)| >= |ChildPath(path, j)|
  {
    if |ChildPath(path, i)| < |ChildPath(path, j)| {
      StepIsDigits(path, j, |ChildPath(path, i)|);
    }
  }

  /** A key is below one child only: the child's number ends at the next colon or point. */
  lemma OneChild(key: string, path: string, i: nat, j: nat)
    requires Below(key, ChildPath(path, i)) && Below(key, ChildPath(path, j))
    ensures i == j
  {
    NotBelowBoth(key, path, i, j);
    NotBelowBoth(key, path, j, i);
    DecimalReads(i);
    DecimalReads(j);
    var a, b := ChildPath(path, i), ChildPath(path, j);
    assert a == b;
    assert Decimal(i) == a[|path| + 1..] == b[|path| + 1..] == Decimal(j);
  }

  predicate DistinctVisits(visits: seq<Visit>) {
    forall i, j :: 0 <= i < j < |visits| ==> visits[i].key != visits[j].key
  }

  lemma DistinctJoin(a: seq<Visit>, b: seq<Visit>)
    requires DistinctVisits(a) && DistinctVisits(b)
    requires forall x, y :: x in a && y in b ==> x.key != y.key
    ensures DistinctVisits(a + b)
  {
    forall i, j | 0 <= i < j < |a + b| ensures (a + b)[i].key != (a + b)[j].key {
      if i < |a| && j >= |a| { assert (a + b)[i] in a && (a + b)[j] in b; }
    }
  }

  /** In one render no two component occurrences share a state record. */
  lemma {:induction false} KeysDistinct(v: VNode, path: string)
    ensures DistinctVisits(Visits(v, path))
    decreases v, 1
  {
    match v
    case VGroup(kids) => KidKeysDistinct(kids, path, |kids|);
    case VElement(_, _, kids) => KidKeysDistinct(kids, path, |kids|);
    case VComponent(name, calls, updates, rendered) =>
      KeysDistinct(rendered, BodyPath(path));
      VisitsBelow(rendered, BodyPath(path));
      var own := [Visit(ComponentKey(path, name), calls, updates)];
      forall x, y | x in own && y in Visits(rendered, BodyPath(path)) ensures x.key != y.key {
        assert BodyPath(path) == path + "." + "c";
        BelowShorter(y.key, path, "c");
      }
      DistinctJoin(own, Visits(rendered, BodyPath(path)));
    case _ =>
  }

  lemma {:induction false} KidKeysDistinct(kids: seq<VNode>, path: string, n: nat)
    requires n <= |kids|
    ensures DistinctVisits(KidVisits(kids, path, n))
    decreases kids, 0, n
  {
    if n == 0 {
    } else {
      KidKeysDistinct(kids, path, n - 1);
      KidVisitsBelow(kids, path, n - 1);
      KeysDistinct(kids[n - 1], ChildPath(path, n - 1));
      VisitsBelow(kids[n - 1], ChildPath(path, n - 1));
      var before, last := KidVisits(kids, path, n - 1), Visits(kids[n - 1], ChildPath(path, n - 1));
      forall x, y | x in before && y in last ensures x.key != y.key {
        var i: nat :| i < n - 1 && Below(x.key, ChildPath(path, i));
        if x.key == y.key { OneChild(x.key, path, i, n - 1); }
      }
      DistinctJoin(before, last);
    }
  }
}
