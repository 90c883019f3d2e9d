/** What the fleet list shows and the summary counts, install by install. */
module FleetRows {
  import opened Prelude
  import opened CanonicalJson
  import E = Enrollment
  import opened Fleet

  // ---------- Names of systems ----------

  /** A small letter and itself, or its capital. */
  predicate SameLetter(c: CodeUnit, small: CodeUnit) {
    if 0x41 <= c <= 0x5A then small == c + 32 else small == c
  }

  predicate StandsAt(s: Text, word: Text, i: nat) {
    i + |word| <= |s| && forall j :: 0 <= j < |word| ==> SameLetter(s[i + j], word[j])
  }

  /** A name mentions a word when its letters stand in it one after another, capital or small. */
  lemma MentionsMeans(s: Text, word: Text)
    ensures Mentions(s, word) <==> exists i: nat :: StandsAt(s, word, i)
  {
    forall i: nat | i <= |s| ensures MentionedAt(s, word, i) <==> StandsAt(s, word, i) {
      if i + |word| <= |s| { assert forall j :: 0 <= j < |word| ==> s[i..][j] == s[i + j]; }
    }
    if i: nat :| StandsAt(s, word, i) { assert MentionedAt(s, word, i); }
  }

  // ---------- Counts ----------

  /** Where the installs that satisfy a condition stand. */
  function Places(installs: seq<Install>, p: Install -> bool): set<nat> {
    set m: nat | m < |installs| && p(installs[m])
  }

  lemma PlacesGrow(installs: seq<Install>, p: Install -> bool)
    requires installs != []
    ensures var n := |installs| - 1;
      && n !in Places(installs[..n], p)
      && Places(installs, p) == Places(installs[..n], p) + if p(installs[n]) then {n} else {}
  {
  }

  lemma {:induction false} TallyCounts(installs: seq<Install>, p: Install -> bool)
    ensures Tally(installs, p) == |Places(installs, p)|
  {
    if installs == [] {
      assert Places(installs, p) == {};
    } else {
      hide Places;
      TallyCounts(installs[..|installs| - 1], p);
      PlacesGrow(installs, p);
    }
  }

  /** Last seen less than two minutes ago. */
  predicate SeenLately(parse: Text -> Option<int>, d: E.Device, now: int) {
    match d.lastSeenAt
    case None => false
    case Some(t) => parse(t).Some? && parse(t).value > now - 120_000
  }

  lemma OnlineMeans(parse: Text -> Option<int>, d: E.Device, now: int)
    ensures Online(parse, d, now) <==> SeenLately(parse, d, now)
  {
  }

  /** Where the devices seen lately stand. */
  function LatelyPlaces(parse: Text -> Option<int>, devices: seq<E.Device>, now: int): set<nat> {
    set n: nat | n < |devices| && SeenLately(parse, devices[n], now)
  }

  lemma LatelyGrow(parse: Text -> Option<int>, devices: seq<E.Device>, now: int)
    requires devices != []
    ensures var n := |devices| - 1;
      && n !in LatelyPlaces(parse, devices[..n], now)
      && LatelyPlaces(parse, devices, now) ==
           LatelyPlaces(parse, devices[..n], now) + if SeenLately(parse, devices[n], now) then {n} else {}
  {
    hide SeenLately;
  }

  lemma {:induction false} OnlineCounts(parse: Text -> Option<int>, devices: seq<E.Device>, now: int)
    ensures OnlineCount(parse, devices, now) == |LatelyPlaces(parse, devices, now)|
  {
    if devices == [] {
      assert LatelyPlaces(parse, devices, now) == {};
    } else {
      hide SeenLately, Online, LatelyPlaces;
      var n := |devices| - 1;
      OnlineCounts(parse, devices[..n], now);
      OnlineMeans(parse, devices[n], now);
      LatelyGrow(parse, devices, now);
    }
  }

  // ---------- Rows ----------

  /** The query is empty, or stands somewhere in the name and publisher, both in lower case. */
  ghost predicate Found(lower: Text -> Text, q: Text, name: Text, publisher: Text) {
    q == [] || exists before, after :: lower(name + [0x20] + publisher) == before + lower(q) + after
  }

  lemma Stands(text: Text, part: Text, i: nat)
    requires i <= |text| && part <= text[i..]
    ensures text == text[..i] + part + text[i + |part|..]
  {
  }

  lemma SelectedMeans(lower: Text -> Text, q: Text, g: Group)
    ensures Selected(lower, q, g) <==> Found(lower, q, g.name, g.publisher)
  {
    var text, part := lower(g.name + [0x20] + g.publisher), lower(q);
    if i: nat :| i <= |text| && part <= text[i..] { Stands(text, part, i); }
    if before, after :| text == before + part + after { assert text[|before|..] == part + after; }
  }

  /** The row of a group: how many of its installs have a version before its latest. */
  ghost predicate RowOf(cmp: Compare, installs: seq<Install>, g: Group, r: Row) {
    && r.group == g
    && r.outdatedDeviceCount ==
         |Places(installs, (i: Install) => Key(i) == GroupKey(g) && cmp(i.version, g.latestVersion) < 0)|
  }

  lemma RowCounts(cmp: Compare, installs: seq<Install>, g: Group)
    ensures RowOf(cmp, installs, g, Row(g, Outdated(cmp, installs, g)))
  {
    hide AppKey, Tally;
    TallyCounts(installs, Behind(cmp, GroupKey(g), g.latestVersion));
    assert Places(installs, Behind(cmp, GroupKey(g), g.latestVersion)) ==
           Places(installs, (i: Install) => Key(i) == GroupKey(g) && cmp(i.version, g.latestVersion) < 0);
  }

  /** The list shows exactly the groups found, in order, each with its count. */
  lemma {:induction false} RowsMean(cmp: Compare, lower: Text -> Text, q: Text, installs: seq<Install>,
                                    groups: seq<Group>)
    returns (at: seq<nat>)
    ensures forall m :: 0 <= m < |at| ==> at[m] < |groups|
    ensures forall k: nat :: k in at <==> k < |groups| && Found(lower, q, groups[k].name, groups[k].publisher)
    ensures forall m, n :: 0 <= m < n < |at| ==> at[m] < at[n]
    ensures var rows := Rows(cmp, lower, q, installs, groups);
      |rows| == |at| && forall m :: 0 <= m < |at| ==> RowOf(cmp, installs, groups[at[m]], rows[m])
  {
    hide Selected, Found, Outdated, RowOf;
    if groups == [] {
      at := [];
    } else {
      var n := |groups| - 1;
      at := RowsMean(cmp, lower, q, installs, groups[..n]);
      SelectedMeans(lower, q, groups[n]);
      RowCounts(cmp, installs, groups[n]);
      if Selected(lower, q, groups[n]) {
        at := at + [n];
      }
    }
  }

  // ---------- The order of the groups ----------

  /** The key `a` turns up before `b` does. */
  ghost predicate Earlier(installs: seq<Install>, a: Text, b: Text) {
    exists m :: 0 <= m < |installs| && Key(installs[m]) == a && Unseen(installs, m, b)
  }

  predicate Unseen(installs: seq<Install>, m: nat, key: Text)
    requires m < |installs|
  {
    forall l :: 0 <= l <= m ==> Key(installs[l]) != key
  }

  lemma EarlierStill(installs: seq<Install>, i: Install, a: Text, b: Text)
    requires Earlier(installs, a, b)
    ensures Earlier(installs + [i], a, b)
  {
    hide AppKey;
    var m :| 0 <= m < |installs| && Key(installs[m]) == a && Unseen(installs, m, b);
    assert Unseen(installs + [i], m, b) && (installs + [i])[m] == installs[m];
  }

  /** The groups come in the order in which their first installs do. */
  lemma {:induction false} GroupsInOrder(cmp: Compare, installs: seq<Install>, j: nat, k: nat)
    requires TotalPreorder(cmp) && j < k < |Groups(cmp, installs)|
    ensures Earlier(installs, GroupKey(Groups(cmp, installs)[j]), GroupKey(Groups(cmp, installs)[k]))
  {
    hide AppKey, Counted, TotalPreorder, GroupOk, Earlier, DistinctGroups;
    var n := |installs| - 1;
    var before, i := Groups(cmp, installs[..n]), installs[n];
    GroupsAreRight(cmp, installs[..n]);
    assert installs == installs[..n] + [i];
    SameKeys(cmp, before, i);
    if k < |before| {
      GroupsInOrder(cmp, installs[..n], j, k);
      EarlierStill(installs[..n], i, GroupKey(before[j]), GroupKey(before[k]));
    } else {
      NewComesLast(cmp, before, installs[..n], i, j);
      EarlierStill(installs[..n], i, GroupKey(before[j]), Key(i));
    }
  }

  lemma SameKeys(cmp: Compare, groups: seq<Group>, i: Install)
    ensures var after := AddInstall(cmp, groups, i);
      && |groups| <= |after| <= |groups| + 1
      && (forall j :: 0 <= j < |groups| ==> GroupKey(after[j]) == GroupKey(groups[j]))
      && (|after| > |groups| ==> GroupKey(after[|groups|]) == Key(i) && FindGroup(groups, Key(i)) == |groups|)
  {
    hide AppKey, SortVersions;
  }

  lemma NewComesLast(cmp: Compare, groups: seq<Group>, installs: seq<Install>, i: Install, j: nat)
    requires Covered(groups, installs) && FindGroup(groups, Key(i)) == |groups| && j < |groups|
    requires GroupOk(cmp, installs, groups[j])
    ensures Earlier(installs, GroupKey(groups[j]), Key(i))
  {
    hide AppKey, Tally, SortedVersions;
    var v := groups[j].versions[0];
    assert v in groups[j].versions;
    var m :| 0 <= m < |installs| && Key(installs[m]) == GroupKey(groups[j]) && installs[m].version == v;
    assert Unseen(installs, m, Key(i));
  }

  // ---------- Versions that count as equal ----------

  predicate Precedes(vs: seq<Text>, a: Text, b: Text) { exists j :: 0 < j < |vs| && vs[j] == b && a in vs[..j] }

  lemma PrecedesLonger(vs: seq<Text>, more: seq<Text>, a: Text, b: Text)
    requires Precedes(vs, a, b)
    ensures Precedes(vs + more, a, b)
  {
    var j :| 0 < j < |vs| && vs[j] == b && a in vs[..j];
    assert (vs + more)[..j] == vs[..j];
  }

  lemma PrecedesLast(vs: seq<Text>, a: Text, b: Text)
    requires a in vs
    ensures Precedes(vs + [b], a, b)
  {
    assert (vs + [b])[..|vs|] == vs;
  }

  lemma {:induction false} InsertKeepsOrder(cmp: Compare, vs: seq<Text>, v: Text, a: Text, b: Text)
    requires Precedes(vs, a, b)
    ensures Precedes(InsertVersion(cmp, vs, v), a, b)
  {
    var n := |vs| - 1;
    if cmp(vs[n], v) <= 0 {
      PrecedesLonger(vs, [v], a, b);
    } else {
      var j :| 0 < j < |vs| && vs[j] == b && a in vs[..j];
      var front := InsertVersion(cmp, vs[..n], v);
      if j < n {
        assert vs[..n][..j] == vs[..j];
        InsertKeepsOrder(cmp, vs[..n], v, a, b);
        PrecedesLonger(front, [vs[n]], a, b);
      } else {
        PrecedesLast(front, a, b);
      }
    }
  }

  lemma {:induction false} InsertAfterEquals(cmp: Compare, vs: seq<Text>, v: Text, a: Text)
    requires a in vs && cmp(a, v) <= 0
    ensures Precedes(InsertVersion(cmp, vs, v), a, v)
  {
    hide Precedes;
    var n := |vs| - 1;
    if cmp(vs[n], v) <= 0 {
      PrecedesLast(vs, a, v);
    } else {
      assert a in vs[..n];
      InsertAfterEquals(cmp, vs[..n], v, a);
      PrecedesLonger(InsertVersion(cmp, vs[..n], v), [vs[n]], a, v);
    }
  }

  /** The sort is stable: a version stays before every later one that it does not come after. */
  lemma {:induction false} SortIsStable(cmp: Compare, vs: seq<Text>, p: nat, q: nat)
    requires p < q < |vs| && cmp(vs[p], vs[q]) <= 0
    ensures Precedes(SortVersions(cmp, vs), vs[p], vs[q])
  {
    hide InsertVersion, Precedes;
    var n := |vs| - 1;
    if q < n {
      SortIsStable(cmp, vs[..n], p, q);
      InsertKeepsOrder(cmp, SortVersions(cmp, vs[..n]), vs[n], vs[p], vs[q]);
    } else {
      assert vs[..n][p] == vs[p];
      InsertAfterEquals(cmp, SortVersions(cmp, vs[..n]), vs[n], vs[p]);
    }
  }
}
