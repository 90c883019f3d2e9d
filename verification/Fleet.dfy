/** The two fleet aggregations: the app list with its outdated counts, and the dashboard summary. */
module Fleet {
  import opened Prelude
  import opened CanonicalJson
  import E = Enrollment

  // ---------- Keys ----------

  function Lower(c: CodeUnit): CodeUnit { if 0x41 <= c <= 0x5A then c + 0x20 else c }

  predicate MentionedAt(s: Text, part: Text, i: nat) {
    i + |part| <= |s| && forall j :: 0 <= j < |part| ==> Lower(s[i..][j]) == part[j]
  }

  /** `part` occurs in `s` at some place, upper and lower case letters alike. */
  predicate Mentions(s: Text, part: Text) { exists i :: 0 <= i <= |s| && MentionedAt(s, part, i) }

  datatype Platform = Windows | Linux | Unsorted

  function DevicePlatform(os: Text): Platform {
    if Mentions(os, Name("windows")) || Mentions(os, Name("win")) then Windows
    else if Mentions(os, Name("linux")) || Mentions(os, Name("ubuntu")) || Mentions(os, Name("debian")) then Linux
    else Unsorted
  }

  /** What mentions a word mentions every part of the word. */
  lemma MentionsPart(s: Text, word: Text, part: Text, k: nat)
    requires k + |part| <= |word| && word[k..k + |part|] == part && Mentions(s, word)
    ensures Mentions(s, part)
  {
    var i :| 0 <= i <= |s| && MentionedAt(s, word, i);
    forall j | 0 <= j < |part| ensures Lower(s[i + k..][j]) == part[j] {
      assert Lower(s[i..][k + j]) == word[k + j] && word[k..k + |part|][j] == word[k + j];
    }
    assert MentionedAt(s, part, i + k);
  }

  /** A device counts as Windows exactly when its system's name mentions "win" anywhere. So the platform is
      right for Windows, that is, given exactly to the names that mention Windows, if and only if a name that
      mentions "win" mentions "windows"; every name that mentions Darwin is given the wrong one. */
  lemma WindowsByName(os: Text)
    ensures DevicePlatform(os) == Windows <==> Mentions(os, Name("win"))
    ensures (DevicePlatform(os) == Windows <==> Mentions(os, Name("windows"))) <==>
            (Mentions(os, Name("win")) ==> Mentions(os, Name("windows")))
    ensures Mentions(os, Name("darwin")) ==> DevicePlatform(os) == Windows
  {
    hide Mentions;
    if Mentions(os, Name("windows")) {
      assert Name("windows")[0..3] == Name("win");
      MentionsPart(os, Name("windows"), Name("win"), 0);
    }
    if Mentions(os, Name("darwin")) {
      assert Name("darwin")[3..6] == Name("win");
      MentionsPart(os, Name("darwin"), Name("win"), 3);
    }
  }

  /** A Linux device whose system's name also mentions "win" is not counted as Linux. */
  lemma LinuxByName(os: Text)
    ensures DevicePlatform(os) == Linux <==>
      !Mentions(os, Name("win"))
        && (Mentions(os, Name("linux")) || Mentions(os, Name("ubuntu")) || Mentions(os, Name("debian")))
  {
    hide Mentions;
    WindowsByName(os);
  }

  /** At a concrete name: Darwin does not mention Windows and counts as Windows. */
  lemma DarwinIsWindows()
    ensures DevicePlatform(Name("Darwin")) == Windows && !Mentions(Name("Darwin"), Name("windows"))
  {
    assert MentionedAt(Name("Darwin"), Name("win"), 3);
    assert |Name("windows")| == 7 && |Name("Darwin")| == 6;
  }

  function PlatformName(p: Platform): Text {
    match p
    case Windows => Name("windows")
    case Linux => Name("linux")
    case Unsorted => Name("other")
  }

  function AppKey(name: Text, publisher: Text, platform: Platform): Text {
    PlatformName(platform) + [0x7C] + name + [0x7C] + publisher
  }

  /** An installed app with the platform of its device. */
  datatype Install = Install(name: Text, publisher: Text, version: Text, platform: Platform)

  function Key(i: Install): Text { AppKey(i.name, i.publisher, i.platform) }

  /** The platform of the first device with the id; an unknown device has no name to test. */
  function PlatformOf(devices: seq<E.Device>, id: Text): Platform {
    var k := E.FindDevice(devices, id);
    DevicePlatform(if k < |devices| then devices[k].os else [])
  }

  function InstallOf(devices: seq<E.Device>, a: E.InstalledApp): Install {
    Install(a.app.name, a.app.publisher, a.app.version, PlatformOf(devices, a.deviceId))
  }

  function Installs(devices: seq<E.Device>, apps: seq<E.InstalledApp>): seq<Install> {
    seq(|apps|, i requires 0 <= i < |apps| => InstallOf(devices, apps[i]))
  }

  /** Keys agree exactly when the platform does and name and publisher joined by a bar do. */
  lemma KeysAgreeIff(a: Install, b: Install)
    ensures Key(a) == Key(b) <==>
      a.platform == b.platform && a.name + [0x7C] + a.publisher == b.name + [0x7C] + b.publisher
  {
    hide PlatformName;
    var p, q := PlatformName(a.platform), PlatformName(b.platform);
    var x, y := a.name + [0x7C] + a.publisher, b.name + [0x7C] + b.publisher;
    assert Key(a) == p + ([0x7C] + x) && Key(b) == q + ([0x7C] + y);
    PlatformNames(a.platform, b.platform);
    PlatformNames(b.platform, a.platform);
    if a.platform == b.platform {
      assert (p + ([0x7C] + x))[|p| + 1..] == x && (q + ([0x7C] + y))[|q| + 1..] == y;
    } else {
      assert (p + ([0x7C] + x))[0] == p[0] && (q + ([0x7C] + y))[0] == q[0];
    }
  }

  lemma PlatformNames(p: Platform, q: Platform)
    ensures PlatformName(p) != [] && (p != q ==> PlatformName(p)[0] != PlatformName(q)[0])
  {
  }

  /** When no name contains a bar, a key belongs to one app. */
  lemma KeyIsApp(a: Install, b: Install)
    requires 0x7C !in a.name && 0x7C !in b.name
    ensures Key(a) == Key(b) <==> a.platform == b.platform && a.name == b.name && a.publisher == b.publisher
  {
    hide AppKey;
    KeysAgreeIff(a, b);
    if a.name + [0x7C] + a.publisher == b.name + [0x7C] + b.publisher {
      FirstBar(a.name, a.publisher, b.name, b.publisher);
    }
  }

  /** The place of the first bar. */
  function BarAt(s: Text): nat { if s == [] || s[0] == 0x7C then 0 else 1 + BarAt(s[1..]) }

  lemma {:induction false} BarAfter(x: Text, rest: Text)
    requires 0x7C !in x
    ensures BarAt(x + [0x7C] + rest) == |x|
  {
    var s := x + [0x7C] + rest;
    if x == [] {
    } else {
      assert s[0] == x[0] && s[1..] == x[1..] + [0x7C] + rest;
      BarAfter(x[1..], rest);
    }
  }

  lemma FirstBar(x: Text, p: Text, y: Text, q: Text)
    requires 0x7C !in x && 0x7C !in y && x + [0x7C] + p == y + [0x7C] + q
    ensures x == y && p == q
  {
    BarAfter(x, p);
    BarAfter(y, q);
    var s := x + [0x7C] + p;
    assert s[..|x|] == x && s[|x| + 1..] == p;
    assert (y + [0x7C] + q)[..|y|] == y && (y + [0x7C] + q)[|y| + 1..] == q;
  }

  /** At a concrete input: two different apps with one key. */
  lemma KeysCollide(platform: Platform, version: Text)
    ensures Key(Install([0x61, 0x7C, 0x62], [0x63], version, platform)) ==
      Key(Install([0x61], [0x62, 0x7C, 0x63], version, platform))
  {
    hide PlatformName;
    KeysAgreeIff(Install([0x61, 0x7C, 0x62], [0x63], version, platform),
                 Install([0x61], [0x62, 0x7C, 0x63], version, platform));
  }

  // ---------- Version order ----------

  type Compare = (Text, Text) -> int

  /** What `localeCompare` promises: a total order, under which different versions may count as equal. */
  ghost predicate TotalPreorder(cmp: Compare) {
    && (forall a, b :: cmp(a, b) < 0 <==> cmp(b, a) > 0)
    && (forall a, b, c :: cmp(a, b) <= 0 && cmp(b, c) <= 0 ==> cmp(a, c) <= 0)
  }

  /** No version is the empty string, or the empty string comes before everything. */
  ghost predicate VersionsFit(cmp: Compare, installs: seq<Install>) {
    && TotalPreorder(cmp)
    && ((forall v :: cmp([], v) <= 0) || forall i :: 0 <= i < |installs| ==> installs[i].version != [])
  }

  /** A stable sort, by insertion. */
  function InsertVersion(cmp: Compare, vs: seq<Text>, v: Text): (r: seq<Text>)
    ensures |r| == |vs| + 1
    ensures forall x :: x in r <==> x in vs || x == v
  {
    if vs == [] || cmp(vs[|vs| - 1], v) <= 0 then vs + [v]
    else
      var n := |vs| - 1;
      assert vs == vs[..n] + [vs[n]];
      InsertVersion(cmp, vs[..n], v) + [vs[n]]
  }

  function SortVersions(cmp: Compare, vs: seq<Text>): (r: seq<Text>)
    ensures |r| == |vs|
    ensures forall x :: x in r <==> x in vs
  {
    if vs == [] then []
    else
      var n := |vs| - 1;
      assert vs == vs[..n] + [vs[n]];
      InsertVersion(cmp, SortVersions(cmp, vs[..n]), vs[n])
  }

  predicate SortedVersions(cmp: Compare, vs: seq<Text>) { forall i, j :: 0 <= i < j < |vs| ==> cmp(vs[i], vs[j]) <= 0 }

  lemma {:induction false} InsertSorts(cmp: Compare, vs: seq<Text>, v: Text)
    requires TotalPreorder(cmp) && SortedVersions(cmp, vs)
    ensures SortedVersions(cmp, InsertVersion(cmp, vs, v))
  {
    hide TotalPreorder;
    var n := |vs| - 1;
    if vs == [] || cmp(vs[n], v) <= 0 {
      forall i | 0 <= i < n ensures cmp(vs[i], v) <= 0 { Ordered(cmp, vs[i], vs[n], v); }
      if vs != [] { assert cmp(vs[n], v) <= 0; }
    } else {
      InsertSorts(cmp, vs[..n], v);
      var front := InsertVersion(cmp, vs[..n], v);
      forall i | 0 <= i < n + 1 ensures cmp(front[i], vs[n]) <= 0 {
        assert front[i] in front;
        Ordered(cmp, vs[n], v, v);
        if front[i] in vs[..n] { var k :| 0 <= k < n && vs[k] == front[i]; }
      }
      AppendSorted(cmp, front, vs[n]);
    }
  }

  lemma Ordered(cmp: Compare, a: Text, b: Text, c: Text)
    requires TotalPreorder(cmp)
    ensures cmp(a, b) <= 0 && cmp(b, c) <= 0 ==> cmp(a, c) <= 0
    ensures cmp(a, b) > 0 ==> cmp(b, a) < 0
  {
  }

  lemma AppendSorted(cmp: Compare, front: seq<Text>, last: Text)
    requires SortedVersions(cmp, front) && forall i :: 0 <= i < |front| ==> cmp(front[i], last) <= 0
    ensures SortedVersions(cmp, front + [last])
  {
  }

  lemma {:induction false} SortSorts(cmp: Compare, vs: seq<Text>)
    requires TotalPreorder(cmp)
    ensures SortedVersions(cmp, SortVersions(cmp, vs))
  {
    hide InsertVersion, TotalPreorder, SortedVersions;
    if vs == [] { EmptySorted(cmp); }
    else {
      SortSorts(cmp, vs[..|vs| - 1]);
      InsertSorts(cmp, SortVersions(cmp, vs[..|vs| - 1]), vs[|vs| - 1]);
    }
  }

  lemma {:induction false} InsertKeepsApart(cmp: Compare, vs: seq<Text>, v: Text)
    requires E.NoRepeats(vs) && v !in vs
    ensures E.NoRepeats(InsertVersion(cmp, vs, v))
  {
    var n := |vs| - 1;
    if vs == [] || cmp(vs[n], v) <= 0 {
    } else {
      InsertKeepsApart(cmp, vs[..n], v);
      var front := InsertVersion(cmp, vs[..n], v);
      forall i | 0 <= i <= n ensures front[i] != vs[n] { assert front[i] in front; }
    }
  }

  lemma {:induction false} SortKeepsApart(cmp: Compare, vs: seq<Text>)
    requires E.NoRepeats(vs)
    ensures E.NoRepeats(SortVersions(cmp, vs))
  {
    hide InsertVersion;
    if vs == [] {
    } else {
      var n := |vs| - 1;
      SortKeepsApart(cmp, vs[..n]);
      assert vs[n] !in vs[..n];
      InsertKeepsApart(cmp, SortVersions(cmp, vs[..n]), vs[n]);
    }
  }

  lemma EmptySorted(cmp: Compare)
    ensures SortedVersions(cmp, [])
  {
  }

  // ---------- The list ----------

  datatype Group = Group(name: Text, publisher: Text, platform: Platform, deviceCount: nat, versions: seq<Text>,
                         oldestVersion: Text, latestVersion: Text)

  function GroupKey(g: Group): Text { AppKey(g.name, g.publisher, g.platform) }

  /** The group with the key, or the length. */
  function FindGroup(groups: seq<Group>, key: Text): (k: nat)
    ensures k <= |groups|
    ensures k < |groups| ==> GroupKey(groups[k]) == key
    ensures forall j :: 0 <= j < k ==> GroupKey(groups[j]) != key
  {
    FindGroupFrom(groups, key, 0)
  }

  function FindGroupFrom(groups: seq<Group>, key: Text, i: nat): (k: nat)
    requires i <= |groups|
    ensures i <= k <= |groups|
    ensures k < |groups| ==> GroupKey(groups[k]) == key
    ensures forall j :: i <= j < k ==> GroupKey(groups[j]) != key
    decreases |groups| - i
  {
    if i == |groups| || GroupKey(groups[i]) == key then i else FindGroupFrom(groups, key, i + 1)
  }

  /** One more device: the versions are made distinct and sorted again. */
  function Counted(cmp: Compare, g: Group, v: Text): Group {
    var vs := SortVersions(cmp, if v in g.versions then g.versions else g.versions + [v]);
    g.(deviceCount := g.deviceCount + 1, versions := vs, oldestVersion := if vs == [] then v else vs[0],
       latestVersion := if vs == [] then v else vs[|vs| - 1])
  }

  function AddInstall(cmp: Compare, groups: seq<Group>, i: Install): seq<Group> {
    var k := FindGroup(groups, Key(i));
    if k < |groups| then groups[k := Counted(cmp, groups[k], i.version)]
    else groups + [Counted(cmp, Group(i.name, i.publisher, i.platform, 0, [], i.version, i.version), i.version)]
  }

  function Groups(cmp: Compare, installs: seq<Install>): seq<Group> {
    if installs == [] then [] else AddInstall(cmp, Groups(cmp, installs[..|installs| - 1]), installs[|installs| - 1])
  }

  /** How many installs satisfy a condition. */
  function Tally(installs: seq<Install>, p: Install -> bool): nat {
    if installs == [] then 0 else Tally(installs[..|installs| - 1], p) + if p(installs[|installs| - 1]) then 1 else 0
  }

  function InGroup(key: Text): Install -> bool { (i: Install) => Key(i) == key }
  function Behind(cmp: Compare, key: Text, latest: Text): Install -> bool {
    (i: Install) => Key(i) == key && cmp(i.version, latest) < 0
  }

  /** A row's `outdatedDeviceCount`. */
  function Outdated(cmp: Compare, installs: seq<Install>, g: Group): nat {
    Tally(installs, Behind(cmp, GroupKey(g), g.latestVersion))
  }

  datatype Row = Row(group: Group, outdatedDeviceCount: nat)

  /** The search box: the query occurs in the name and publisher, both in lower case. */
  predicate Selected(lower: Text -> Text, q: Text, g: Group) {
    q == [] || exists i ::
      0 <= i <= |lower(g.name + [0x20] + g.publisher)| && lower(q) <= lower(g.name + [0x20] + g.publisher)[i..]
  }

  function Rows(cmp: Compare, lower: Text -> Text, q: Text, installs: seq<Install>, groups: seq<Group>): seq<Row> {
    if groups == [] then []
    else
      var n := |groups| - 1;
      Rows(cmp, lower, q, installs, groups[..n])
      + if Selected(lower, q, groups[n]) then [Row(groups[n], Outdated(cmp, installs, groups[n]))] else []
  }

  // ---------- The summary ----------

  function AddLatest(cmp: Compare, latest: map<Text, Text>, i: Install): map<Text, Text> {
    if Key(i) !in latest || latest[Key(i)] == [] || cmp(i.version, latest[Key(i)]) > 0 then
      latest[Key(i) := i.version]
    else latest
  }

  function Latest(cmp: Compare, installs: seq<Install>): map<Text, Text> {
    if installs == [] then map[] else AddLatest(cmp, Latest(cmp, installs[..|installs| - 1]), installs[|installs| - 1])
  }

  /** The summary's test for an app that is not up to date. */
  predicate Lags(cmp: Compare, latest: map<Text, Text>, i: Install) {
    Key(i) in latest && latest[Key(i)] != [] && cmp(i.version, latest[Key(i)]) < 0
  }

  function Lagging(cmp: Compare, latest: map<Text, Text>): Install -> bool { (i: Install) => Lags(cmp, latest, i) }

  datatype Stats = Stats(onlineDevices: nat, compliantApps: nat, outdatedApps: nat, coverage: int)

  predicate Online(parse: Text -> Option<int>, d: E.Device, now: int) {
    d.lastSeenAt.Some? && parse(d.lastSeenAt.value).Some? && now - parse(d.lastSeenAt.value).value < 120_000
  }

  function OnlineCount(parse: Text -> Option<int>, devices: seq<E.Device>, now: int): nat {
    if devices == [] then 0
    else OnlineCount(parse, devices[..|devices| - 1], now) + if Online(parse, devices[|devices| - 1], now) then 1 else 0
  }

  // ---------- The controllers' loops ----------

  method PlatformFor(devices: seq<E.Device>, id: Text) returns (p: Platform)
    ensures p == PlatformOf(devices, id)
  {
    hide DevicePlatform;
    var k := 0;
    while k < |devices| && devices[k].id != id
      invariant k <= |devices| && forall j :: 0 <= j < k ==> devices[j].id != id
    {
      k := k + 1;
    }
    assert k == E.FindDevice(devices, id);
    p := DevicePlatform(if k < |devices| then devices[k].os else []);
  }

  /** `list`: its loop over the installed apps, then the filter and the map. */
  method List(cmp: Compare, lower: Text -> Text, devices: seq<E.Device>, apps: seq<E.InstalledApp>, q: Text)
    returns (rows: seq<Row>)
    ensures rows == Rows(cmp, lower, q, Installs(devices, apps), Groups(cmp, Installs(devices, apps)))
  {
    hide Groups, Selected, Outdated, Installs;
    var groups := GroupApps(cmp, devices, apps);
    rows := [];
    for n := 0 to |groups|
      invariant rows == Rows(cmp, lower, q, Installs(devices, apps), groups[..n])
    {
      assert groups[..n + 1][..n] == groups[..n];
      if Selected(lower, q, groups[n]) {
        var count := CountBehind(cmp, devices, apps, groups[n]);
        rows := rows + [Row(groups[n], count)];
      }
    }
    assert groups[..|groups|] == groups;
  }

  method GroupApps(cmp: Compare, devices: seq<E.Device>, apps: seq<E.InstalledApp>) returns (groups: seq<Group>)
    ensures groups == Groups(cmp, Installs(devices, apps))
  {
    hide PlatformOf, AppKey, Counted, AddInstall;
    ghost var installs := Installs(devices, apps);
    groups := [];
    for n := 0 to |apps|
      invariant groups == Groups(cmp, installs[..n])
    {
      assert installs[..n + 1][..n] == installs[..n];
      var platform := PlatformFor(devices, apps[n].deviceId);
      assert installs[n] == Install(apps[n].app.name, apps[n].app.publisher, apps[n].app.version, platform);
      groups := CountApp(cmp, groups, apps[n].app, platform);
    }
    assert installs[..|apps|] == installs;
  }

  method CountApp(cmp: Compare, groups: seq<Group>, app: E.AppDetails, platform: Platform) returns (r: seq<Group>)
    ensures r == AddInstall(cmp, groups, Install(app.name, app.publisher, app.version, platform))
  {
    hide AppKey, Counted;
    var key := AppKey(app.name, app.publisher, platform);
    var k := 0;
    while k < |groups| && GroupKey(groups[k]) != key
      invariant k <= |groups| && forall j :: 0 <= j < k ==> GroupKey(groups[j]) != key
    {
      k := k + 1;
    }
    assert k == FindGroup(groups, key);
    if k < |groups| {
      r := groups[k := Counted(cmp, groups[k], app.version)];
    } else {
      r := groups + [Counted(cmp, Group(app.name, app.publisher, platform, 0, [], app.version, app.version),
                             app.version)];
    }
  }

  method CountBehind(cmp: Compare, devices: seq<E.Device>, apps: seq<E.InstalledApp>, g: Group) returns (count: nat)
    ensures count == Outdated(cmp, Installs(devices, apps), g)
  {
    hide PlatformOf, AppKey;
    ghost var installs := Installs(devices, apps);
    count := 0;
    for n := 0 to |apps|
      invariant count == Tally(installs[..n], Behind(cmp, GroupKey(g), g.latestVersion))
    {
      assert installs[..n + 1][..n] == installs[..n];
      var platform := PlatformFor(devices, apps[n].deviceId);
      assert installs[n] == Install(apps[n].app.name, apps[n].app.publisher, apps[n].app.version, platform);
      assert Behind(cmp, GroupKey(g), g.latestVersion)(installs[n]) <==>
        Key(installs[n]) == GroupKey(g) && cmp(installs[n].version, g.latestVersion) < 0;
      if AppKey(apps[n].app.name, apps[n].app.publisher, platform) == GroupKey(g)
         && cmp(apps[n].app.version, g.latestVersion) < 0 {
        count := count + 1;
      }
    }
    assert installs[..|apps|] == installs;
  }

  /** `computeSummaryStats`. */
  method ComputeSummaryStats(cmp: Compare, parse: Text -> Option<int>, devices: seq<E.Device>,
                             apps: seq<E.InstalledApp>, now: int)
    returns (s: Stats)
    ensures s.outdatedApps == Tally(Installs(devices, apps), Lagging(cmp, Latest(cmp, Installs(devices, apps))))
    ensures s.compliantApps + s.outdatedApps == |apps|
    ensures s.onlineDevices == OnlineCount(parse, devices, now)
    ensures NearestPercent(s.coverage, s.compliantApps, |apps|)
  {
    hide Latest, Tally, NearestPercent;
    var online := 0;
    for n := 0 to |devices|
      invariant online == OnlineCount(parse, devices[..n], now)
    {
      assert devices[..n + 1][..n] == devices[..n];
      if Online(parse, devices[n], now) { online := online + 1; }
    }
    assert devices[..|devices|] == devices;
    var latestByApp := LatestByApp(cmp, devices, apps);
    var compliant, outdated := CountCompliant(cmp, devices, apps, latestByApp);
    var coverage := if |apps| > 0 then Percent(compliant, |apps|) else 100;
    PercentIsNearest(compliant, |apps|);
    s := Stats(online, compliant, outdated, coverage);
  }

  method LatestByApp(cmp: Compare, devices: seq<E.Device>, apps: seq<E.InstalledApp>)
    returns (latestByApp: map<Text, Text>)
    ensures latestByApp == Latest(cmp, Installs(devices, apps))
  {
    hide PlatformOf, AppKey;
    ghost var installs := Installs(devices, apps);
    latestByApp := map[];
    for n := 0 to |apps|
      invariant latestByApp == Latest(cmp, installs[..n])
    {
      assert installs[..n + 1][..n] == installs[..n];
      var platform := PlatformFor(devices, apps[n].deviceId);
      assert installs[n] == Install(apps[n].app.name, apps[n].app.publisher, apps[n].app.version, platform);
      var key := AppKey(apps[n].app.name, apps[n].app.publisher, platform);
      if key !in latestByApp || latestByApp[key] == [] || cmp(apps[n].app.version, latestByApp[key]) > 0 {
        latestByApp := latestByApp[key := apps[n].app.version];
      }
    }
    assert installs[..|apps|] == installs;
  }

  method CountCompliant(cmp: Compare, devices: seq<E.Device>, apps: seq<E.InstalledApp>, latestByApp: map<Text, Text>)
    returns (compliant: nat, outdated: nat)
    ensures outdated == Tally(Installs(devices, apps), Lagging(cmp, latestByApp)) && compliant + outdated == |apps|
  {
    hide PlatformOf, AppKey;
    ghost var installs := Installs(devices, apps);
    compliant, outdated := 0, 0;
    for n := 0 to |apps|
      invariant outdated == Tally(installs[..n], Lagging(cmp, latestByApp)) && compliant + outdated == n
    {
      assert installs[..n + 1][..n] == installs[..n];
      var platform := PlatformFor(devices, apps[n].deviceId);
      assert installs[n] == Install(apps[n].app.name, apps[n].app.publisher, apps[n].app.version, platform);
      var key := AppKey(apps[n].app.name, apps[n].app.publisher, platform);
      if key !in latestByApp || latestByApp[key] == [] || cmp(apps[n].app.version, latestByApp[key]) >= 0 {
        compliant := compliant + 1;
      } else {
        outdated := outdated + 1;
      }
    }
    assert installs[..|apps|] == installs;
  }

  /** `Math.round` of the exact percentage: the nearest integer, halves upwards. */
  function Percent(part: nat, total: nat): int
    requires total > 0
  {
    (200 * part + total) / (2 * total)
  }

  /** Within half a point of the exact percentage, above it when halfway, and 100 for an empty fleet. */
  predicate NearestPercent(coverage: int, part: nat, total: nat) {
    if total == 0 then coverage == 100
    else 200 * part - total < coverage * (2 * total) <= 200 * part + total
  }

  lemma PercentIsNearest(part: nat, total: nat)
    ensures NearestPercent(if total > 0 then Percent(part, total) else 100, part, total)
  {
    if total > 0 { Division(200 * part + total, 2 * total); }
  }

  lemma Division(n: nat, d: nat)
    requires d > 0
    ensures n / d * d <= n < n / d * d + d
  {
    assert n == n / d * d + n % d;
  }

  // ---------- What the list's groups are ----------

  /** Some install of the group has the version. */
  ghost predicate HasVersion(installs: seq<Install>, key: Text, v: Text) {
    exists m :: 0 <= m < |installs| && Key(installs[m]) == key && installs[m].version == v
  }

  /** A group against the installs seen so far. */
  ghost predicate GroupOk(cmp: Compare, installs: seq<Install>, g: Group) {
    && g.deviceCount == Tally(installs, InGroup(GroupKey(g)))
    && (forall v :: v in g.versions <==> HasVersion(installs, GroupKey(g), v))
    && g.versions != [] && SortedVersions(cmp, g.versions) && E.NoRepeats(g.versions)
    && g.oldestVersion == g.versions[0] && g.latestVersion == g.versions[|g.versions| - 1]
  }

  predicate DistinctGroups(groups: seq<Group>) {
    forall i, j :: 0 <= i < j < |groups| ==> GroupKey(groups[i]) != GroupKey(groups[j])
  }

  /** Every install is in a group. */
  predicate Covered(groups: seq<Group>, installs: seq<Install>) {
    forall i :: 0 <= i < |installs| ==> exists k :: 0 <= k < |groups| && GroupKey(groups[k]) == Key(installs[i])
  }

  lemma {:induction false} GroupsAreRight(cmp: Compare, installs: seq<Install>)
    requires TotalPreorder(cmp)
    ensures var groups := Groups(cmp, installs);
      DistinctGroups(groups) && Covered(groups, installs) && forall k :: 0 <= k < |groups| ==>
        GroupOk(cmp, installs, groups[k])
  {
    hide GroupOk, AppKey, TotalPreorder, AddInstall, Covered, DistinctGroups;
    if installs == [] {
      assert DistinctGroups([]) && Covered([], []) by { NoGroups(); }
    } else {
      var n := |installs| - 1;
      GroupsAreRight(cmp, installs[..n]);
      assert installs == installs[..n] + [installs[n]];
      KeysAfterAdd(cmp, Groups(cmp, installs[..n]), installs[..n], installs[n]);
      GroupsAfterAdd(cmp, Groups(cmp, installs[..n]), installs[..n], installs[n]);
    }
  }

  lemma NoGroups()
    ensures DistinctGroups([]) && Covered([], [])
  {
  }

  lemma KeysAfterAdd(cmp: Compare, groups: seq<Group>, installs: seq<Install>, i: Install)
    requires DistinctGroups(groups) && Covered(groups, installs)
    ensures DistinctGroups(AddInstall(cmp, groups, i)) && Covered(AddInstall(cmp, groups, i), installs + [i])
  {
    hide AppKey, SortVersions;
    var after := AddInstall(cmp, groups, i);
    var k := FindGroup(groups, Key(i));
    assert forall j :: 0 <= j < |groups| ==> GroupKey(after[j]) == GroupKey(groups[j]);
    assert GroupKey(after[k]) == Key(i);
    forall m | 0 <= m < |installs + [i]|
      ensures exists j :: 0 <= j < |after| && GroupKey(after[j]) == Key((installs + [i])[m])
    {
      if m < |installs| {
        var j :| 0 <= j < |groups| && GroupKey(groups[j]) == Key(installs[m]);
        assert GroupKey(after[j]) == Key((installs + [i])[m]);
      } else {
        assert GroupKey(after[k]) == Key((installs + [i])[m]);
      }
    }
  }

  lemma GroupsAfterAdd(cmp: Compare, groups: seq<Group>, installs: seq<Install>, i: Install)
    requires TotalPreorder(cmp) && DistinctGroups(groups) && Covered(groups, installs)
    requires forall k :: 0 <= k < |groups| ==> GroupOk(cmp, installs, groups[k])
    ensures forall k :: 0 <= k < |AddInstall(cmp, groups, i)| ==>
      GroupOk(cmp, installs + [i], AddInstall(cmp, groups, i)[k])
  {
    hide GroupOk, AppKey, TotalPreorder, Counted;
    var after := AddInstall(cmp, groups, i);
    var k := FindGroup(groups, Key(i));
    forall j | 0 <= j < |after| ensures GroupOk(cmp, installs + [i], after[j]) {
      if j != k {
        assert GroupKey(groups[j]) != Key(i);
        OtherGroup(cmp, installs, groups[j], i);
      } else if k < |groups| {
        OwnGroup(cmp, installs, groups[k], i);
      } else {
        forall m | 0 <= m < |installs| ensures Key(installs[m]) != Key(i) {
          var g :| 0 <= g < |groups| && GroupKey(groups[g]) == Key(installs[m]);
        }
        NewGroup(cmp, installs, i);
      }
    }
  }

  lemma TallyGrows(installs: seq<Install>, i: Install, p: Install -> bool)
    ensures Tally(installs + [i], p) == Tally(installs, p) + if p(i) then 1 else 0
  {
    assert (installs + [i])[..|installs|] == installs;
  }

  lemma VersionGrows(installs: seq<Install>, i: Install, key: Text, v: Text)
    ensures HasVersion(installs + [i], key, v) <==> HasVersion(installs, key, v) || (Key(i) == key && i.version == v)
  {
    hide AppKey;
    if HasVersion(installs, key, v) {
      var m :| 0 <= m < |installs| && Key(installs[m]) == key && installs[m].version == v;
      assert (installs + [i])[m] == installs[m];
    }
    if Key(i) == key && i.version == v { assert (installs + [i])[|installs|] == i; }
  }

  lemma OtherGroup(cmp: Compare, installs: seq<Install>, g: Group, i: Install)
    requires GroupOk(cmp, installs, g) && GroupKey(g) != Key(i)
    ensures GroupOk(cmp, installs + [i], g)
  {
    hide AppKey, Tally;
    TallyGrows(installs, i, InGroup(GroupKey(g)));
    forall v ensures HasVersion(installs + [i], GroupKey(g), v) <==> HasVersion(installs, GroupKey(g), v) {
      VersionGrows(installs, i, GroupKey(g), v);
    }
    forall v ensures v in g.versions <==> HasVersion(installs, GroupKey(g), v) {}
    forall v ensures v in g.versions <==> HasVersion(installs + [i], GroupKey(g), v) {}
  }

  lemma CountedIsOk(cmp: Compare, installs: seq<Install>, g: Group, i: Install)
    requires TotalPreorder(cmp) && GroupKey(g) == Key(i)
    requires g.deviceCount == Tally(installs, InGroup(GroupKey(g))) && E.NoRepeats(g.versions)
    requires forall v :: v in g.versions <==> HasVersion(installs, GroupKey(g), v)
    ensures GroupOk(cmp, installs + [i], Counted(cmp, g, i.version))
  {
    hide AppKey, Tally, TotalPreorder, SortedVersions, SortVersions, HasVersion;
    SortKeepsApart(cmp, if i.version in g.versions then g.versions else g.versions + [i.version]);
    var before := if i.version in g.versions then g.versions else g.versions + [i.version];
    SortSorts(cmp, before);
    TallyGrows(installs, i, InGroup(GroupKey(g)));
    var h := Counted(cmp, g, i.version);
    forall v ensures v in h.versions <==> HasVersion(installs + [i], GroupKey(h), v) {
      VersionGrows(installs, i, GroupKey(g), v);
      assert v in h.versions <==> v in before;
    }
    GroupIntro(cmp, installs + [i], h);
  }

  lemma GroupIntro(cmp: Compare, installs: seq<Install>, g: Group)
    requires g.deviceCount == Tally(installs, InGroup(GroupKey(g))) && g.versions != []
    requires SortedVersions(cmp, g.versions) && E.NoRepeats(g.versions)
    requires forall v :: v in g.versions <==> HasVersion(installs, GroupKey(g), v)
    requires g.oldestVersion == g.versions[0] && g.latestVersion == g.versions[|g.versions| - 1]
    ensures GroupOk(cmp, installs, g)
  {
    hide HasVersion, Tally, SortedVersions;
  }

  lemma OwnGroup(cmp: Compare, installs: seq<Install>, g: Group, i: Install)
    requires TotalPreorder(cmp) && GroupOk(cmp, installs, g) && GroupKey(g) == Key(i)
    ensures GroupOk(cmp, installs + [i], Counted(cmp, g, i.version))
  {
    hide AppKey, Tally, TotalPreorder, Counted;
    forall v ensures v in g.versions <==> HasVersion(installs, GroupKey(g), v) {}
    CountedIsOk(cmp, installs, g, i);
  }

  lemma NewGroup(cmp: Compare, installs: seq<Install>, i: Install)
    requires TotalPreorder(cmp) && forall m :: 0 <= m < |installs| ==> Key(installs[m]) != Key(i)
    ensures GroupOk(cmp, installs + [i],
                    Counted(cmp, Group(i.name, i.publisher, i.platform, 0, [], i.version, i.version), i.version))
  {
    hide AppKey, TotalPreorder, Counted;
    TallyNone(installs, InGroup(Key(i)));
    CountedIsOk(cmp, installs, Group(i.name, i.publisher, i.platform, 0, [], i.version, i.version), i);
  }

  lemma {:induction false} TallyNone(installs: seq<Install>, p: Install -> bool)
    requires forall m :: 0 <= m < |installs| ==> !p(installs[m])
    ensures Tally(installs, p) == 0
  {
    if installs == [] {
    } else {
      TallyNone(installs[..|installs| - 1], p);
    }
  }

  /** A group carries the name, publisher and platform of one of its installs. */
  lemma {:induction false} GroupsAreNamed(cmp: Compare, installs: seq<Install>)
    ensures forall k :: 0 <= k < |Groups(cmp, installs)| ==> Names(installs, Groups(cmp, installs)[k])
  {
    hide AppKey, Counted;
    if installs == [] {
    } else {
      var n := |installs| - 1;
      var before, i := Groups(cmp, installs[..n]), installs[n];
      GroupsAreNamed(cmp, installs[..n]);
      var after := AddInstall(cmp, before, i);
      forall k | 0 <= k < |after| ensures Names(installs, after[k]) {
        CountedIsNamed(cmp,
                       if k < |before| then
                         before[k]
                       else Group(i.name, i.publisher, i.platform, 0, [], i.version, i.version), i.version);
        if k < |before| {
          var m :| 0 <= m < n && IsFor(installs[..n][m], before[k]);
          assert IsFor(installs[m], after[k]);
        } else {
          assert IsFor(installs[n], after[k]);
        }
      }
    }
  }

  predicate IsFor(i: Install, g: Group) { i.name == g.name && i.publisher == g.publisher && i.platform == g.platform }

  predicate Names(installs: seq<Install>, g: Group) { exists m :: 0 <= m < |installs| && IsFor(installs[m], g) }

  lemma CountedIsNamed(cmp: Compare, g: Group, v: Text)
    ensures Counted(cmp, g, v).name == g.name && Counted(cmp, g, v).publisher == g.publisher
    ensures Counted(cmp, g, v).platform == g.platform
  {
  }

  /** When no app name contains a bar there is one group for each app: the installs of a group are exactly
      those with its name, publisher and platform. */
  lemma GroupsAreApps(cmp: Compare, installs: seq<Install>, k: nat, m: nat)
    requires forall j :: 0 <= j < |installs| ==> 0x7C !in installs[j].name
    requires k < |Groups(cmp, installs)| && m < |installs|
    ensures Key(installs[m]) == GroupKey(Groups(cmp, installs)[k]) <==> IsFor(installs[m], Groups(cmp, installs)[k])
  {
    hide AppKey, Groups;
    GroupsAreNamed(cmp, installs);
    var g := Groups(cmp, installs)[k];
    assert Names(installs, g);
    var j :| 0 <= j < |installs| && IsFor(installs[j], g);
    KeyIsApp(installs[m], installs[j]);
  }

  // ---------- Both find the newest version ----------

  /** A version of the group that no version of it comes after. */
  ghost predicate IsNewest(cmp: Compare, installs: seq<Install>, key: Text, v: Text) {
    && HasVersion(installs, key, v)
    && forall m :: 0 <= m < |installs| && Key(installs[m]) == key ==> cmp(installs[m].version, v) <= 0
  }

  /** In the list: every group's latest version is a maximum of the group, its oldest a minimum. */
  lemma ListFindsNewest(cmp: Compare, installs: seq<Install>, k: nat)
    requires TotalPreorder(cmp) && k < |Groups(cmp, installs)|
    ensures var g := Groups(cmp, installs)[k];
      && IsNewest(cmp, installs, GroupKey(g), g.latestVersion)
      && HasVersion(installs, GroupKey(g), g.oldestVersion)
      && forall m :: 0 <= m < |installs| && Key(installs[m]) == GroupKey(g) ==>
        cmp(g.oldestVersion, installs[m].version) <= 0
  {
    hide Groups, GroupOk;
    GroupsAreRight(cmp, installs);
    GroupEnds(cmp, installs, Groups(cmp, installs)[k]);
  }

  lemma GroupEnds(cmp: Compare, installs: seq<Install>, g: Group)
    requires TotalPreorder(cmp) && GroupOk(cmp, installs, g)
    ensures IsNewest(cmp, installs, GroupKey(g), g.latestVersion) && HasVersion(installs, GroupKey(g), g.oldestVersion)
    ensures forall m :: 0 <= m < |installs| && Key(installs[m]) == GroupKey(g) ==>
      cmp(g.oldestVersion, installs[m].version) <= 0
  {
    hide AppKey, Tally, TotalPreorder;
    assert g.latestVersion in g.versions && g.oldestVersion in g.versions;
    forall m | 0 <= m < |installs| && Key(installs[m]) == GroupKey(g)
      ensures cmp(installs[m].version, g.latestVersion) <= 0 && cmp(g.oldestVersion, installs[m].version) <= 0
    {
      assert installs[m].version in g.versions;
      var j :| 0 <= j < |g.versions| && g.versions[j] == installs[m].version;
      Reflexive(cmp, g.latestVersion);
      Reflexive(cmp, g.oldestVersion);
    }
  }

  lemma Reflexive(cmp: Compare, v: Text)
    requires TotalPreorder(cmp)
    ensures cmp(v, v) == 0
  {
  }

  ghost predicate LatestOk(cmp: Compare, installs: seq<Install>, latest: map<Text, Text>) {
    && (forall m :: 0 <= m < |installs| ==> Key(installs[m]) in latest)
    && forall key :: key in latest ==> IsNewest(cmp, installs, key, latest[key])
  }

  lemma {:induction false} SummaryFindsNewest(cmp: Compare, installs: seq<Install>)
    requires VersionsFit(cmp, installs)
    ensures LatestOk(cmp, installs, Latest(cmp, installs))
  {
    hide AppKey, IsNewest, AddLatest;
    if installs == [] {
    } else {
      var n := |installs| - 1;
      FitsBefore(cmp, installs);
      SummaryFindsNewest(cmp, installs[..n]);
      assert installs == installs[..n] + [installs[n]];
      LatestAfterAdd(cmp, installs[..n], installs[n], Latest(cmp, installs[..n]));
    }
  }

  lemma FitsBefore(cmp: Compare, installs: seq<Install>)
    requires VersionsFit(cmp, installs) && installs != []
    ensures VersionsFit(cmp, installs[..|installs| - 1])
  {
  }

  lemma LatestAfterAdd(cmp: Compare, installs: seq<Install>, i: Install, latest: map<Text, Text>)
    requires LatestOk(cmp, installs, latest) && VersionsFit(cmp, installs + [i])
    ensures LatestOk(cmp, installs + [i], AddLatest(cmp, latest, i))
  {
    hide AppKey, IsNewest, TotalPreorder, VersionsFit;
    var after := AddLatest(cmp, latest, i);
    forall key | key in after ensures IsNewest(cmp, installs + [i], key, after[key]) {
      if key != Key(i) { NewestElsewhere(cmp, installs, i, key, latest[key]); }
      else if key !in latest { NewestFirst(cmp, installs, i, latest); }
      else { NewestHere(cmp, installs, i, latest); }
    }
    forall m | 0 <= m < |installs + [i]| ensures Key((installs + [i])[m]) in after {
      if m < |installs| { assert (installs + [i])[m] == installs[m]; }
    }
  }

  lemma NewestElsewhere(cmp: Compare, installs: seq<Install>, i: Install, key: Text, v: Text)
    requires IsNewest(cmp, installs, key, v) && Key(i) != key
    ensures IsNewest(cmp, installs + [i], key, v)
  {
    hide AppKey, HasVersion;
    VersionGrows(installs, i, key, v);
  }

  lemma NewestFirst(cmp: Compare, installs: seq<Install>, i: Install, latest: map<Text, Text>)
    requires LatestOk(cmp, installs, latest) && VersionsFit(cmp, installs + [i]) && Key(i) !in latest
    ensures IsNewest(cmp, installs + [i], Key(i), i.version)
  {
    hide AppKey, HasVersion;
    VersionGrows(installs, i, Key(i), i.version);
    Reflexive(cmp, i.version);
  }

  lemma NewestHere(cmp: Compare, installs: seq<Install>, i: Install, latest: map<Text, Text>)
    requires LatestOk(cmp, installs, latest) && VersionsFit(cmp, installs + [i]) && Key(i) in latest
    ensures IsNewest(cmp, installs + [i], Key(i), AddLatest(cmp, latest, i)[Key(i)])
  {
    hide AppKey, HasVersion, VersionsFit;
    var before := latest[Key(i)];
    var v := AddLatest(cmp, latest, i)[Key(i)];
    assert IsNewest(cmp, installs, Key(i), before);
    NotBelow(cmp, installs, i, before);
    VersionGrows(installs, i, Key(i), v);
  }

  /** An empty version replaced without comparing is not after its replacement. */
  lemma NotBelow(cmp: Compare, installs: seq<Install>, i: Install, v: Text)
    requires VersionsFit(cmp, installs + [i]) && HasVersion(installs, Key(i), v)
    ensures TotalPreorder(cmp) && cmp(i.version, i.version) == 0
    ensures v == [] ==> cmp(v, i.version) <= 0
  {
    hide AppKey;
    Reflexive(cmp, i.version);
    if v == [] {
      var m :| 0 <= m < |installs| && Key(installs[m]) == Key(i) && installs[m].version == v;
      assert (installs + [i])[m].version == [];
    }
  }

  // ---------- The two agree ----------

  function SumOutdated(cmp: Compare, installs: seq<Install>, groups: seq<Group>): nat {
    if groups == [] then
      0
    else SumOutdated(cmp, installs, groups[..|groups| - 1]) + Outdated(cmp, installs, groups[|groups| - 1])
  }

  function SumDevices(groups: seq<Group>): nat {
    if groups == [] then 0 else SumDevices(groups[..|groups| - 1]) + groups[|groups| - 1].deviceCount
  }

  function Within(groups: seq<Group>, p: Install -> bool): Install -> bool {
    (i: Install) => p(i) && exists k :: 0 <= k < |groups| && GroupKey(groups[k]) == Key(i)
  }

  lemma {:induction false} TallySame(installs: seq<Install>, p: Install -> bool, q: Install -> bool)
    requires forall m :: 0 <= m < |installs| ==> p(installs[m]) == q(installs[m])
    ensures Tally(installs, p) == Tally(installs, q)
  {
    if installs == [] {
    } else {
      TallySame(installs[..|installs| - 1], p, q);
    }
  }

  lemma {:induction false} TallyJoins(installs: seq<Install>, p: Install -> bool, q: Install -> bool,
                                      r: Install -> bool)
    requires forall m :: 0 <= m < |installs| ==>
      (r(installs[m]) <==> p(installs[m]) || q(installs[m])) && !(p(installs[m]) && q(installs[m]))
    ensures Tally(installs, r) == Tally(installs, p) + Tally(installs, q)
  {
    if installs == [] {
    } else {
      TallyJoins(installs[..|installs| - 1], p, q, r);
    }
  }

  function InGroupAnd(key: Text, p: Install -> bool): Install -> bool { (i: Install) => Key(i) == key && p(i) }

  function SumTally(installs: seq<Install>, groups: seq<Group>, p: Install -> bool): nat {
    if groups == [] then 0
    else SumTally(installs, groups[..|groups| - 1], p) + Tally(installs, InGroupAnd(GroupKey(groups[|groups| - 1]), p))
  }

  /** Counting group by group counts each install of the groups once. */
  lemma {:induction false} SumIsTotal(installs: seq<Install>, groups: seq<Group>, p: Install -> bool)
    requires DistinctGroups(groups)
    ensures SumTally(installs, groups, p) == Tally(installs, Within(groups, p))
  {
    hide AppKey, Tally;
    if groups == [] {
      TallyNone(installs, Within(groups, p));
    } else {
      var n := |groups| - 1;
      SumIsTotal(installs, groups[..n], p);
      forall m | 0 <= m < |installs|
        ensures Within(groups, p)(installs[m]) <==>
          Within(groups[..n], p)(installs[m]) || InGroupAnd(GroupKey(groups[n]), p)(installs[m])
        ensures !(Within(groups[..n], p)(installs[m]) && InGroupAnd(GroupKey(groups[n]), p)(installs[m]))
      {
        WithinGrows(groups, p, installs[m]);
      }
      TallyJoins(installs, Within(groups[..n], p), InGroupAnd(GroupKey(groups[n]), p), Within(groups, p));
    }
  }

  lemma WithinGrows(groups: seq<Group>, p: Install -> bool, i: Install)
    requires groups != [] && DistinctGroups(groups)
    ensures var n := |groups| - 1;
      && (Within(groups, p)(i) <==> Within(groups[..n], p)(i) || InGroupAnd(GroupKey(groups[n]), p)(i))
      && !(Within(groups[..n], p)(i) && InGroupAnd(GroupKey(groups[n]), p)(i))
  {
    hide AppKey;
    var n := |groups| - 1;
    if k :| 0 <= k < n && GroupKey(groups[k]) == Key(i) { assert groups[..n][k] == groups[k]; }
  }

  lemma AllWithin(installs: seq<Install>, groups: seq<Group>, p: Install -> bool)
    requires Covered(groups, installs)
    ensures Tally(installs, Within(groups, p)) == Tally(installs, p)
  {
    hide AppKey, Tally;
    TallySame(installs, Within(groups, p), p);
  }

  /** Summed over the list, the devices of the groups are the installs. */
  lemma DevicesAddUp(cmp: Compare, installs: seq<Install>)
    requires TotalPreorder(cmp)
    ensures SumDevices(Groups(cmp, installs)) == |installs|
  {
    hide AppKey, Groups, Tally, Covered;
    var groups := Groups(cmp, installs);
    GroupsAreRight(cmp, installs);
    var all := (i: Install) => true;
    SumIsTotal(installs, groups, all);
    AllWithin(installs, groups, all);
    TallyAll(installs, all);
    SumsOfDevices(cmp, installs, groups, all);
  }

  lemma {:induction false} TallyAll(installs: seq<Install>, p: Install -> bool)
    requires forall i :: p(i)
    ensures Tally(installs, p) == |installs|
  {
    if installs == [] {
    } else {
      TallyAll(installs[..|installs| - 1], p);
    }
  }

  lemma {:induction false} SumsOfDevices(cmp: Compare, installs: seq<Install>, groups: seq<Group>, all: Install -> bool)
    requires forall k :: 0 <= k < |groups| ==> GroupOk(cmp, installs, groups[k])
    requires forall i :: all(i)
    ensures SumDevices(groups) == SumTally(installs, groups, all)
  {
    hide AppKey, Tally, HasVersion, SortedVersions;
    if groups == [] {
    } else {
      var n := |groups| - 1;
      SumsOfDevices(cmp, installs, groups[..n], all);
      TallySame(installs, InGroup(GroupKey(groups[n])), InGroupAnd(GroupKey(groups[n]), all));
    }
  }

  /** The list's outdated devices add up to the summary's outdated apps. */
  lemma OutdatedAgree(cmp: Compare, installs: seq<Install>)
    requires VersionsFit(cmp, installs)
    ensures SumOutdated(cmp, installs, Groups(cmp, installs)) == Tally(installs, Lagging(cmp, Latest(cmp, installs)))
  {
    hide AppKey, Groups, Latest, Tally, Covered, VersionsFit, GroupOk;
    var groups, latest := Groups(cmp, installs), Latest(cmp, installs);
    assert TotalPreorder(cmp) by { FitOrder(cmp, installs); }
    GroupsAreRight(cmp, installs);
    SummaryFindsNewest(cmp, installs);
    SumIsTotal(installs, groups, Lagging(cmp, latest));
    AllWithin(installs, groups, Lagging(cmp, latest));
    forall k | 0 <= k < |groups| ensures IsNewest(cmp, installs, GroupKey(groups[k]), groups[k].latestVersion) {
      ListFindsNewest(cmp, installs, k);
    }
    SumsOfOutdated(cmp, installs, groups, latest);
  }

  lemma FitOrder(cmp: Compare, installs: seq<Install>)
    requires VersionsFit(cmp, installs)
    ensures TotalPreorder(cmp)
  {
  }

  lemma {:induction false} SumsOfOutdated(cmp: Compare, installs: seq<Install>, groups: seq<Group>,
                                          latest: map<Text, Text>)
    requires VersionsFit(cmp, installs) && LatestOk(cmp, installs, latest)
    requires forall k :: 0 <= k < |groups| ==> IsNewest(cmp, installs, GroupKey(groups[k]), groups[k].latestVersion)
    ensures SumOutdated(cmp, installs, groups) == SumTally(installs, groups, Lagging(cmp, latest))
  {
    hide AppKey, Tally, IsNewest, VersionsFit, LatestOk, Lags;
    if groups == [] {
    } else {
      var n := |groups| - 1;
      var g := groups[n];
      SumsOfOutdated(cmp, installs, groups[..n], latest);
      forall m | 0 <= m < |installs|
        ensures Behind(cmp, GroupKey(g), g.latestVersion)(installs[m]) ==
          InGroupAnd(GroupKey(g), Lagging(cmp, latest))(installs[m])
      {
        if Key(installs[m]) == GroupKey(g) { BehindIsLagging(cmp, installs, latest, m, g.latestVersion); }
      }
      TallySame(installs, Behind(cmp, GroupKey(g), g.latestVersion), InGroupAnd(GroupKey(g), Lagging(cmp, latest)));
    }
  }

  /** Being behind one newest version is being behind any. */
  lemma BehindIsLagging(cmp: Compare, installs: seq<Install>, latest: map<Text, Text>, m: nat, newest: Text)
    requires VersionsFit(cmp, installs) && LatestOk(cmp, installs, latest) && m < |installs|
    requires IsNewest(cmp, installs, Key(installs[m]), newest)
    ensures cmp(installs[m].version, newest) < 0 <==> Lags(cmp, latest, installs[m])
  {
    hide AppKey;
    var key, v := Key(installs[m]), installs[m].version;
    var w := latest[key];
    assert IsNewest(cmp, installs, key, w);
    var a :| 0 <= a < |installs| && Key(installs[a]) == key && installs[a].version == newest;
    var b :| 0 <= b < |installs| && Key(installs[b]) == key && installs[b].version == w;
    assert cmp(newest, w) <= 0 && cmp(w, newest) <= 0;
    assert w == [] ==> cmp(w, v) <= 0;
  }

  function SumRows(rows: seq<Row>): (nat, nat) {
    if rows == [] then (0, 0)
    else
      var s, r := SumRows(rows[..|rows| - 1]), rows[|rows| - 1];
      (s.0 + r.group.deviceCount, s.1 + r.outdatedDeviceCount)
  }

  lemma {:induction false} RowSums(cmp: Compare, lower: Text -> Text, installs: seq<Install>, groups: seq<Group>)
    ensures SumRows(Rows(cmp, lower, [], installs, groups)) == (SumDevices(groups), SumOutdated(cmp, installs, groups))
  {
    hide Selected, Outdated;
    if groups == [] {
    } else {
      var n := |groups| - 1;
      EmptyQuerySelects(lower, groups[n]);
      RowSums(cmp, lower, installs, groups[..n]);
      var rows := Rows(cmp, lower, [], installs, groups[..n]);
      var more := rows + [Row(groups[n], Outdated(cmp, installs, groups[n]))];
      assert more[..|rows|] == rows;
    }
  }

  lemma EmptyQuerySelects(lower: Text -> Text, g: Group)
    ensures Selected(lower, [], g)
  {
  }

  /** The unfiltered list and the summary of the same fleet: devices add up to the installs, and outdated
      devices to the summary's outdated apps. */
  lemma FleetViewsAgree(cmp: Compare, lower: Text -> Text, devices: seq<E.Device>, apps: seq<E.InstalledApp>)
    requires VersionsFit(cmp, Installs(devices, apps))
    ensures var installs := Installs(devices, apps);
      SumRows(Rows(cmp, lower, [], installs, Groups(cmp, installs))) ==
        (|apps|, Tally(installs, Lagging(cmp, Latest(cmp, installs))))
  {
    hide Groups, Latest, Tally, Rows, SumRows, VersionsFit, PlatformOf;
    var installs := Installs(devices, apps);
    FitOrder(cmp, installs);
    RowSums(cmp, lower, installs, Groups(cmp, installs));
    DevicesAddUp(cmp, installs);
    OutdatedAgree(cmp, installs);
  }
}
