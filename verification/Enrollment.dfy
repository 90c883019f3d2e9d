/** Events synced from a node: device registration against an enrollment quota, heartbeats, inventories. */
module Enrollment {
  import opened Prelude
  import opened CanonicalJson

  datatype ClientEnrollment = ClientEnrollment(id: Text, tenantId: Text, tokenHash: Text, maxUses: nat, uses: nat,
                                               usedDeviceIds: seq<Text>)

  /** `labels` stands for the members a registration leaves alone. */
  datatype Device = Device(id: Text, tenantId: Text, hostname: Text, os: Text, publicKey: Text,
                           preferredNodeId: Option<Text>,
                           lastSeenAt: Option<Text>, labels: seq<Text>)

  datatype AppDetails = AppDetails(name: Text, publisher: Text, version: Text)
  datatype InstalledApp = InstalledApp(deviceId: Text, app: AppDetails)

  datatype Event =
    | DeviceRegistered(deviceId: Option<Text>, payloadId: Text, enrollmentToken: Text, hostname: Text, os: Text,
                       publicKey: Text)
    | Heartbeat(device: Text)
    | Inventory(owner: Text, apps: seq<AppDetails>)
    | Other

  /** An event with the node that sent it and the clock when it is handled. */
  datatype Received = Received(nodeId: Text, now: Text, event: Event)

  datatype Store = Store(enrollments: seq<ClientEnrollment>, devices: seq<Device>, installedApps: seq<InstalledApp>)

  // ---------- One event ----------

  /** `deviceId ?? id`. */
  function RegisteredId(e: Event): Text
    requires e.DeviceRegistered?
  {
    if e.deviceId.Some? then e.deviceId.value else e.payloadId
  }

  /** `find` by token: the first enrollment whose hash matches, or the length. */
  function FindEnrollment(compare: (Text, Text) -> bool, enrollments: seq<ClientEnrollment>, token: Text): (k: nat)
    ensures k <= |enrollments|
    ensures k < |enrollments| ==> token != [] && compare(token, enrollments[k].tokenHash)
    ensures forall j :: 0 <= j < k ==> token == [] || !compare(token, enrollments[j].tokenHash)
  {
    if enrollments == [] || (token != [] && compare(token, enrollments[0].tokenHash)) then 0
    else 1 + FindEnrollment(compare, enrollments[1..], token)
  }

  function FindDevice(devices: seq<Device>, id: Text): (k: nat)
    ensures k <= |devices|
    ensures k < |devices| ==> devices[k].id == id
    ensures forall j :: 0 <= j < k ==> devices[j].id != id
  {
    if devices == [] || devices[0].id == id then 0 else 1 + FindDevice(devices[1..], id)
  }

  /** The enrollment a registration is accepted under: the token is known, and the device is on it already
      or a use is left. */
  function AcceptedUnder(compare: (Text, Text) -> bool, s: Store, e: Event): (r: Option<nat>)
    requires e.DeviceRegistered?
    ensures r.Some? ==> r.value < |s.enrollments|
  {
    var k := FindEnrollment(compare, s.enrollments, e.enrollmentToken);
    if k == |s.enrollments| then None
    else if RegisteredId(e) !in s.enrollments[k].usedDeviceIds && s.enrollments[k].uses >= s.enrollments[k].maxUses then
      None
    else Some(k)
  }

  function Spend(e: ClientEnrollment, id: Text): ClientEnrollment {
    if id in e.usedDeviceIds then e else e.(usedDeviceIds := e.usedDeviceIds + [id], uses := e.uses + 1)
  }

  function Assigned(devices: seq<Device>, d: Device): seq<Device> {
    var k := FindDevice(devices, d.id);
    if k < |devices| then devices[k := d.(labels := devices[k].labels)] else devices + [d]
  }

  function Fresh(r: Received, tenantId: Text): Device
    requires r.event.DeviceRegistered?
  {
    Device(RegisteredId(r.event), tenantId, r.event.hostname, r.event.os, r.event.publicKey, Some(r.nodeId),
           Some(r.now), [])
  }

  function Seen(devices: seq<Device>, id: Text, nodeId: Text, now: Text): seq<Device> {
    var k := FindDevice(devices, id);
    if k < |devices| then
      devices[k := devices[k].(lastSeenAt := Some(now), preferredNodeId := Some(nodeId))]
    else devices
  }

  function Without(apps: seq<InstalledApp>, id: Text): seq<InstalledApp> {
    if apps == [] then []
    else Without(apps[..|apps| - 1], id) + if apps[|apps| - 1].deviceId != id then [apps[|apps| - 1]] else []
  }

  function Stamped(apps: seq<AppDetails>, id: Text): seq<InstalledApp> {
    if apps == [] then [] else Stamped(apps[..|apps| - 1], id) + [InstalledApp(id, apps[|apps| - 1])]
  }

  function Step(compare: (Text, Text) -> bool, s: Store, r: Received): Store {
    match r.event
    case DeviceRegistered(_, _, _, _, _, _) =>
      var k := AcceptedUnder(compare, s, r.event);
      if k.None? then s
      else
        s.(enrollments := s.enrollments[k.value := Spend(s.enrollments[k.value], RegisteredId(r.event))],
           devices := Assigned(s.devices, Fresh(r, s.enrollments[k.value].tenantId)))
    case Heartbeat(id) => s.(devices := Seen(s.devices, id, r.nodeId, r.now))
    case Inventory(id, apps) => s.(installedApps := Without(s.installedApps, id) + Stamped(apps, id))
    case Other => s
  }

  function Run(compare: (Text, Text) -> bool, s: Store, rs: seq<Received>): Store {
    if rs == [] then s else Step(compare, Run(compare, s, rs[..|rs| - 1]), rs[|rs| - 1])
  }

  // ---------- What one event does ----------

  /** The registration goes under the first enrollment its token fits, and only there: it has to be counted on it
      already or to find a use left. */
  predicate GoesUnder(compare: (Text, Text) -> bool, s: Store, e: Event, id: Text, k: nat)
    requires e.DeviceRegistered?
  {
    && k < |s.enrollments| && |e.enrollmentToken| > 0 && compare(e.enrollmentToken, s.enrollments[k].tokenHash)
    && (forall j :: 0 <= j < k ==> !compare(e.enrollmentToken, s.enrollments[j].tokenHash))
    && (id in s.enrollments[k].usedDeviceIds || s.enrollments[k].uses < s.enrollments[k].maxUses)
  }

  /** One event turns the device that stands first under an id into another, and touches no other. */
  predicate FirstBecomes(before: seq<Device>, after: seq<Device>, i: nat, d: Device) {
    && i < |before| && before[i].id == d.id && (forall j :: 0 <= j < i ==> before[j].id != d.id)
    && after == before[..i] + [d] + before[i + 1..]
  }

  predicate Unlisted(devices: seq<Device>, id: Text) { forall j :: 0 <= j < |devices| ==> devices[j].id != id }

  lemma UnderMeans(compare: (Text, Text) -> bool, s: Store, e: Event, k: nat)
    requires e.DeviceRegistered?
    ensures AcceptedUnder(compare, s, e) == Some(k) <==>
      GoesUnder(compare, s, e, if e.deviceId.Some? then e.deviceId.value else e.payloadId, k)
  {
    var n := FindEnrollment(compare, s.enrollments, e.enrollmentToken);
    if n < k && k <= |s.enrollments| { assert compare(e.enrollmentToken, s.enrollments[n].tokenHash); }
  }

  /** A registration is accepted under an enrollment exactly when it goes under it; it then counts the device on it
      once, and the device is renewed where it stands or added at the end. Any other registration does nothing. */
  lemma RegistrationMeans(compare: (Text, Text) -> bool, s: Store, r: Received)
    requires r.event.DeviceRegistered?
    ensures var e := r.event; var id := if e.deviceId.Some? then e.deviceId.value else e.payloadId;
      var t := Step(compare, s, r);
      && (forall k: nat :: AcceptedUnder(compare, s, e) == Some(k) <==> GoesUnder(compare, s, e, id, k))
      && ((forall k: nat :: !GoesUnder(compare, s, e, id, k)) ==> t == s)
      && t.installedApps == s.installedApps
      && forall k: nat :: GoesUnder(compare, s, e, id, k) ==>
           && var was := s.enrollments[k];
           && |t.enrollments| == |s.enrollments|
           && (forall j :: 0 <= j < |s.enrollments| && j != k ==> t.enrollments[j] == s.enrollments[j])
           && t.enrollments[k] ==
                (if id in was.usedDeviceIds then was
                 else ClientEnrollment(was.id, was.tenantId, was.tokenHash, was.maxUses, was.uses + 1,
                                       was.usedDeviceIds + [id]))
           && var d := Device(id, was.tenantId, e.hostname, e.os, e.publicKey, Some(r.nodeId), Some(r.now), []);
           && (if Unlisted(s.devices, id) then t.devices == s.devices + [d]
               else exists i: nat :: i < |s.devices| &&
                      FirstBecomes(s.devices, t.devices, i, d.(labels := s.devices[i].labels)))
  {
    hide AcceptedUnder;
    var e := r.event;
    var id := RegisteredId(e);
    var t := Step(compare, s, r);
    forall k: nat ensures AcceptedUnder(compare, s, e) == Some(k) <==> GoesUnder(compare, s, e, id, k) {
      UnderMeans(compare, s, e, k);
    }
    if k: nat :| GoesUnder(compare, s, e, id, k) {
      assert AcceptedUnder(compare, s, e) == Some(k);
      var i := FindDevice(s.devices, id);
      if i < |s.devices| {
        var d := Fresh(r, s.enrollments[k].tenantId).(labels := s.devices[i].labels);
        assert t.devices == s.devices[i := d] == s.devices[..i] + [d] + s.devices[i + 1..];
        assert FirstBecomes(s.devices, t.devices, i, d);
      }
    }
  }

  /** A heartbeat gives the first device of its id the node and the time, and does nothing for an unknown one. */
  lemma HeartbeatMeans(compare: (Text, Text) -> bool, s: Store, r: Received)
    requires r.event.Heartbeat?
    ensures var t := Step(compare, s, r);
      && t.enrollments == s.enrollments && t.installedApps == s.installedApps
      && (if Unlisted(s.devices, r.event.device) then t.devices == s.devices
          else exists i: nat :: i < |s.devices| &&
                 FirstBecomes(s.devices, t.devices, i,
                              s.devices[i].(preferredNodeId := Some(r.nodeId), lastSeenAt := Some(r.now))))
  {
    var t := Step(compare, s, r);
    var i := FindDevice(s.devices, r.event.device);
    if i < |s.devices| {
      var d := s.devices[i].(preferredNodeId := Some(r.nodeId), lastSeenAt := Some(r.now));
      assert t.devices == s.devices[i := d] == s.devices[..i] + [d] + s.devices[i + 1..];
      assert FirstBecomes(s.devices, t.devices, i, d);
    }
  }

  predicate Ascending(at: seq<nat>) { forall m, n :: 0 <= m < n < |at| ==> at[m] < at[n] }

  /** The places of the other devices' apps, in order. */
  ghost predicate OthersAt(apps: seq<InstalledApp>, owner: Text, at: seq<nat>) {
    Ascending(at) && forall i: nat :: i in at <==> i < |apps| && apps[i].deviceId != owner
  }

  lemma AscendingGrows(at: seq<nat>, n: nat)
    requires Ascending(at) && forall i :: i in at ==> i < n
    ensures Ascending(at + [n])
  {
    forall m | 0 <= m < |at| ensures at[m] < n { assert at[m] in at; }
  }

  lemma OthersGrow(apps: seq<InstalledApp>, owner: Text, at: seq<nat>)
    requires apps != [] && OthersAt(apps[..|apps| - 1], owner, at)
    ensures var n := |apps| - 1; OthersAt(apps, owner, if apps[n].deviceId != owner then at + [n] else at)
  {
    hide Ascending;
    var n := |apps| - 1;
    AscendingGrows(at, n);
    forall i: nat ensures i in at + [n] <==> i in at || i == n {}
    forall i: nat | i < n ensures i in at <==> apps[i].deviceId != owner { assert apps[..n][i] == apps[i]; }
  }

  /** The list has what stands at these places. */
  predicate Picks(apps: seq<InstalledApp>, at: seq<nat>, kept: seq<InstalledApp>) {
    |kept| == |at| && forall m :: 0 <= m < |at| ==> at[m] < |apps| && kept[m] == apps[at[m]]
  }

  lemma PicksGrow(apps: seq<InstalledApp>, at: seq<nat>, kept: seq<InstalledApp>)
    requires apps != [] && Picks(apps[..|apps| - 1], at, kept)
    ensures Picks(apps, at, kept) && Picks(apps, at + [|apps| - 1], kept + [apps[|apps| - 1]])
  {
  }

  lemma {:induction false} WithoutMeans(apps: seq<InstalledApp>, owner: Text) returns (at: seq<nat>)
    ensures OthersAt(apps, owner, at) && Picks(apps, at, Without(apps, owner))
  {
    if apps == [] {
      at := [];
    } else {
      hide OthersAt, Picks;
      var n := |apps| - 1;
      at := WithoutMeans(apps[..n], owner);
      OthersGrow(apps, owner, at);
      PicksGrow(apps, at, Without(apps[..n], owner));
      if apps[n].deviceId != owner {
        at := at + [n];
      } else {
        assert Without(apps, owner) == Without(apps[..n], owner) + [];
      }
    }
  }

  lemma {:induction false} StampedMeans(apps: seq<AppDetails>, owner: Text)
    ensures |Stamped(apps, owner)| == |apps|
    ensures forall j :: 0 <= j < |apps| ==> Stamped(apps, owner)[j] == InstalledApp(owner, apps[j])
  {
    if apps == [] {
    } else {
      StampedMeans(apps[..|apps| - 1], owner);
    }
  }

  /** An inventory leaves the other devices' apps where they are among themselves, and puts the device's new ones
      after them, in order. */
  lemma InventoryMeans(compare: (Text, Text) -> bool, s: Store, r: Received) returns (at: seq<nat>)
    requires r.event.Inventory?
    ensures OthersAt(s.installedApps, r.event.owner, at)
    ensures var t := Step(compare, s, r);
      && t.enrollments == s.enrollments && t.devices == s.devices
      && |t.installedApps| == |at| + |r.event.apps|
      && Picks(s.installedApps, at, t.installedApps[..|at|])
      && forall j :: 0 <= j < |r.event.apps| ==>
           t.installedApps[|at| + j] == InstalledApp(r.event.owner, r.event.apps[j])
  {
    hide OthersAt, Without, Stamped;
    at := WithoutMeans(s.installedApps, r.event.owner);
    StampedMeans(r.event.apps, r.event.owner);
    assert Step(compare, s, r).installedApps[..|at|] == Without(s.installedApps, r.event.owner);
  }

  /** Batches one after another are one long run. */
  lemma {:induction false} RunSplit(compare: (Text, Text) -> bool, s: Store, a: seq<Received>, b: seq<Received>)
    ensures Run(compare, s, a + b) == Run(compare, Run(compare, s, a), b)
  {
    if b == [] { assert a + b == a; }
    else {
      assert (a + b)[..|a + b| - 1] == a + b[..|b| - 1];
      RunSplit(compare, s, a, b[..|b| - 1]);
    }
  }

  // ---------- The controller ----------

  class AgentController {
    var enrollments: seq<ClientEnrollment>
    var devices: seq<Device>
    var installedApps: seq<InstalledApp>
    const compare: (Text, Text) -> bool

    function State(): Store
      reads this
    {
      Store(enrollments, devices, installedApps)
    }

    constructor (s: Store, compare: (Text, Text) -> bool)
      ensures State() == s && this.compare == compare
    {
      enrollments, devices, installedApps := s.enrollments, s.devices, s.installedApps;
      this.compare := compare;
    }

    method Register(e: Event, nodeId: Text, now: Text)
      requires e.DeviceRegistered?
      modifies this
      ensures State() == Step(compare, old(State()), Received(nodeId, now, e))
    {
      var id := if e.deviceId.Some? then e.deviceId.value else e.payloadId;
      var k := IndexOfEnrollment(e.enrollmentToken);
      if k == |enrollments| { return; }
      var alreadyUsed := id in enrollments[k].usedDeviceIds;
      if !alreadyUsed && enrollments[k].uses >= enrollments[k].maxUses { return; }
      var tenantId := enrollments[k].tenantId;
      if !alreadyUsed {
        var used := enrollments[k].(usedDeviceIds := enrollments[k].usedDeviceIds + [id]);
        used := used.(uses := used.uses + 1);
        enrollments := enrollments[k := used];
      }
      var i := IndexOfDevice(id);
      var device := Device(id, tenantId, e.hostname, e.os, e.publicKey, Some(nodeId), Some(now), []);
      if i < |devices| {
        devices := devices[i := device.(labels := devices[i].labels)];
      } else {
        devices := devices + [device];
      }
    }

    method IndexOfEnrollment(token: Text) returns (k: nat)
      ensures k == FindEnrollment(compare, enrollments, token)
    {
      k := 0;
      while k < |enrollments| && !(token != [] && compare(token, enrollments[k].tokenHash))
        invariant k <= |enrollments|
        invariant forall j :: 0 <= j < k ==> token == [] || !compare(token, enrollments[j].tokenHash)
      {
        k := k + 1;
      }
      assert k == FindEnrollment(compare, enrollments, token);
    }

    method IndexOfDevice(id: Text) returns (i: nat)
      ensures i == FindDevice(devices, id)
    {
      i := 0;
      while i < |devices| && devices[i].id != id
        invariant i <= |devices|
        invariant forall j :: 0 <= j < i ==> devices[j].id != id
      {
        i := i + 1;
      }
      assert i == FindDevice(devices, id);
    }

    method TakeInventory(owner: Text, apps: seq<AppDetails>)
      modifies this`installedApps
      ensures installedApps == Without(old(installedApps), owner) + Stamped(apps, owner)
    {
      var kept := [];
      for i := 0 to |installedApps|
        invariant kept == Without(installedApps[..i], owner)
      {
        assert installedApps[..i + 1][..i] == installedApps[..i];
        if installedApps[i].deviceId != owner { kept := kept + [installedApps[i]]; }
      }
      assert installedApps[..|installedApps|] == installedApps;
      var stamped := [];
      for i := 0 to |apps|
        invariant stamped == Stamped(apps[..i], owner)
      {
        assert apps[..i + 1][..i] == apps[..i];
        stamped := stamped + [InstalledApp(owner, apps[i])];
      }
      assert apps[..|apps|] == apps;
      installedApps := kept + stamped;
    }

    /** One batch: every event is handled, in order, rejected or not. */
    method SyncNodeEvents(nodeId: Text, events: seq<Event>, clock: nat -> Text) returns (accepted: nat)
      modifies this
      ensures State() == Run(compare, old(State()), Batch(nodeId, events, clock))
      ensures accepted == |events|
    {
      hide Step;
      ghost var batch := Batch(nodeId, events, clock);
      ghost var start := State();
      for i := 0 to |events|
        invariant State() == Run(compare, start, batch[..i])
      {
        assert batch[..i + 1][..i] == batch[..i] && batch[i] == Received(nodeId, clock(i), events[i]);
        ghost var before := State();
        match events[i] {
          case DeviceRegistered(_, _, _, _, _, _) =>
            Register(events[i], nodeId, clock(i));
          case Heartbeat(id) =>
            var k := IndexOfDevice(id);
            if k < |devices| {
              devices := devices[k := devices[k].(lastSeenAt := Some(clock(i)), preferredNodeId := Some(nodeId))];
            }
          case Inventory(owner, apps) =>
            TakeInventory(owner, apps);
          case Other =>
        }
        StepByKind(compare, before, batch[i]);
      }
      assert batch[..|events|] == batch;
      accepted := |events|;
    }
  }

  function Batch(nodeId: Text, events: seq<Event>, clock: nat -> Text): seq<Received> {
    seq(|events|, i requires 0 <= i < |events| => Received(nodeId, clock(i), events[i]))
  }

  lemma StepByKind(compare: (Text, Text) -> bool, s: Store, r: Received)
    ensures r.event.Heartbeat? ==>
      Step(compare, s, r) == s.(devices := Seen(s.devices, r.event.device, r.nodeId, r.now))
    ensures r.event.Inventory? ==>
      Step(compare, s, r) ==
        s.(installedApps := Without(s.installedApps, r.event.owner) + Stamped(r.event.apps, r.event.owner))
    ensures r.event.Other? ==> Step(compare, s, r) == s
  {
  }

  // ---------- Quotas ----------

  predicate NoRepeats(ids: seq<Text>) { forall i, j :: 0 <= i < j < |ids| ==> ids[i] != ids[j] }

  function Elements(ids: seq<Text>): set<Text> { set x | x in ids }

  /** The count is the number of different devices, and within the quota. */
  predicate QuotaKept(e: ClientEnrollment) { e.uses == |Elements(e.usedDeviceIds)| && e.uses <= e.maxUses }

  predicate UniqueDevices(devices: seq<Device>) {
    forall i, j :: 0 <= i < j < |devices| ==> devices[i].id != devices[j].id
  }

  /** What every event keeps. */
  ghost predicate Sound(s: Store) {
    && (forall k :: 0 <= k < |s.enrollments| ==>
      NoRepeats(s.enrollments[k].usedDeviceIds) && QuotaKept(s.enrollments[k]))
    && UniqueDevices(s.devices)
  }

  lemma SpendKeeps(e: ClientEnrollment, id: Text)
    requires NoRepeats(e.usedDeviceIds) && QuotaKept(e) && (id in e.usedDeviceIds || e.uses < e.maxUses)
    ensures NoRepeats(Spend(e, id).usedDeviceIds) && QuotaKept(Spend(e, id))
  {
    if id !in e.usedDeviceIds {
      assert Elements(e.usedDeviceIds + [id]) == Elements(e.usedDeviceIds) + {id};
    }
  }

  lemma AssignedKeeps(devices: seq<Device>, d: Device)
    requires UniqueDevices(devices)
    ensures UniqueDevices(Assigned(devices, d))
  {
  }

  lemma SeenKeeps(devices: seq<Device>, id: Text, nodeId: Text, now: Text)
    requires UniqueDevices(devices)
    ensures UniqueDevices(Seen(devices, id, nodeId, now))
  {
  }

  lemma StepSound(compare: (Text, Text) -> bool, s: Store, r: Received)
    requires Sound(s)
    ensures Sound(Step(compare, s, r))
  {
    hide QuotaKept, NoRepeats, UniqueDevices, Assigned, Seen, Spend;
    match r.event
    case DeviceRegistered(_, _, _, _, _, _) =>
      var k := AcceptedUnder(compare, s, r.event);
      if k.Some? {
        QuotaBounds(s.enrollments[k.value]);
        SpendKeeps(s.enrollments[k.value], RegisteredId(r.event));
        AssignedKeeps(s.devices, Fresh(r, s.enrollments[k.value].tenantId));
      }
    case Heartbeat(id) => SeenKeeps(s.devices, id, r.nodeId, r.now);
    case _ =>
  }

  lemma QuotaBounds(e: ClientEnrollment)
    requires QuotaKept(e)
    ensures e.uses <= e.maxUses
  {
  }

  /** Over any sequence of batches: uses count distinct devices, quotas hold, device ids stay unique. */
  lemma {:induction false} RunSound(compare: (Text, Text) -> bool, s: Store, rs: seq<Received>)
    requires Sound(s)
    ensures Sound(Run(compare, s, rs))
  {
    hide Step, Sound;
    if rs == [] {
    } else {
      RunSound(compare, s, rs[..|rs| - 1]);
      StepSound(compare, Run(compare, s, rs[..|rs| - 1]), rs[|rs| - 1]);
    }
  }

  /** A device already on the enrollment registers again for free, even when the quota is used up. */
  lemma KnownDeviceSpendsNothing(compare: (Text, Text) -> bool, s: Store, r: Received)
    requires r.event.DeviceRegistered?
    requires var k := FindEnrollment(compare, s.enrollments, r.event.enrollmentToken);
      k < |s.enrollments| && RegisteredId(r.event) in s.enrollments[k].usedDeviceIds
    ensures Step(compare, s, r).enrollments == s.enrollments
    ensures AcceptedUnder(compare, s, r.event).Some?
    ensures exists i ::
      0 <= i < |Step(compare, s, r).devices| && Step(compare, s, r).devices[i].id == RegisteredId(r.event)
  {
    hide FindEnrollment;
    var t := Step(compare, s, r);
    var k := FindDevice(s.devices, RegisteredId(r.event));
    assert k < |t.devices| && t.devices[k].id == RegisteredId(r.event);
  }

  /** Event i registered the device under enrollment k. */
  predicate AcceptedAt(compare: (Text, Text) -> bool, s: Store, rs: seq<Received>, i: nat, k: nat, id: Text)
    requires i < |rs|
  {
    && rs[i].event.DeviceRegistered? && RegisteredId(rs[i].event) == id
    && AcceptedUnder(compare, Run(compare, s, rs[..i]), rs[i].event) == Some(k)
  }

  /** The devices counted on an enrollment are those it started with and those accepted under it since. */
  lemma {:induction false} UsedIffAccepted(compare: (Text, Text) -> bool, s: Store, rs: seq<Received>, k: nat, id: Text)
    requires k < |s.enrollments|
    ensures |Run(compare, s, rs).enrollments| == |s.enrollments|
    ensures id in Run(compare, s, rs).enrollments[k].usedDeviceIds <==>
      id in s.enrollments[k].usedDeviceIds || exists i :: 0 <= i < |rs| && AcceptedAt(compare, s, rs, i, k, id)
  {
    hide Step, AcceptedUnder, Run;
    RunUnfolds(compare, s, rs);
    if rs == [] {
    } else {
      var n := |rs| - 1;
      var before := rs[..n];
      UsedIffAccepted(compare, s, before, k, id);
      UsedStep(compare, Run(compare, s, before), rs[n], k, id);
      forall i | 0 <= i < n ensures AcceptedAt(compare, s, rs, i, k, id) <==> AcceptedAt(compare, s, before, i, k, id) {
        assert before[..i] == rs[..i];
      }
      assert AcceptedAt(compare, s, rs, n, k, id) <==>
        (rs[n].event.DeviceRegistered? && RegisteredId(rs[n].event) == id
         && AcceptedUnder(compare, Run(compare, s, before), rs[n].event) == Some(k));
      if exists i :: 0 <= i < n && AcceptedAt(compare, s, before, i, k, id) {
        var i :| 0 <= i < n && AcceptedAt(compare, s, before, i, k, id);
        assert AcceptedAt(compare, s, rs, i, k, id);
      }
      if exists i :: 0 <= i < |rs| && AcceptedAt(compare, s, rs, i, k, id) {
        var i :| 0 <= i < |rs| && AcceptedAt(compare, s, rs, i, k, id);
        assert i < n ==> AcceptedAt(compare, s, before, i, k, id);
      }
    }
  }

  lemma RunUnfolds(compare: (Text, Text) -> bool, s: Store, rs: seq<Received>)
    ensures Run(compare, s, rs) == if rs == [] then s else Step(compare, Run(compare, s, rs[..|rs| - 1]), rs[|rs| - 1])
  {
  }

  lemma UsedStep(compare: (Text, Text) -> bool, s: Store, r: Received, k: nat, id: Text)
    requires k < |s.enrollments|
    ensures |Step(compare, s, r).enrollments| == |s.enrollments|
    ensures id in Step(compare, s, r).enrollments[k].usedDeviceIds <==>
      || id in s.enrollments[k].usedDeviceIds
      || (r.event.DeviceRegistered? && RegisteredId(r.event) == id && AcceptedUnder(compare, s, r.event) == Some(k))
  {
    hide AcceptedUnder, Assigned, Seen;
  }

  // ---------- Who is registered ----------

  function Lookup(devices: seq<Device>, id: Text): Option<Device> {
    var k := FindDevice(devices, id);
    if k < |devices| then Some(devices[k]) else None
  }

  /** The last registration of a device that was accepted, by its place in the run. */
  function LastAccepted(compare: (Text, Text) -> bool, s: Store, rs: seq<Received>, id: Text): (r: Option<nat>)
    ensures r.Some? ==> r.value < |rs| && rs[r.value].event.DeviceRegistered? && RegisteredId(rs[r.value].event) == id
    ensures r.Some? ==> AcceptedUnder(compare, Run(compare, s, rs[..r.value]), rs[r.value].event).Some?
  {
    if rs == [] then None
    else
      var n := |rs| - 1;
      if rs[n].event.DeviceRegistered? && RegisteredId(rs[n].event) == id
         && AcceptedUnder(compare, Run(compare, s, rs[..n]), rs[n].event).Some?
      then Some(n)
      else
        var k := LastAccepted(compare, s, rs[..n], id);
        assert k.Some? ==> rs[..n][..k.value] == rs[..k.value];
        k
  }

  /** A device without the members heartbeats change. */
  function Core(d: Option<Device>): Option<Device> {
    if d.None? then None else Some(d.value.(preferredNodeId := None, lastSeenAt := None, labels := []))
  }

  /** The tenant of the enrollment a registration was accepted under. */
  function TenantFor(compare: (Text, Text) -> bool, s: Store, e: Event): Text
    requires e.DeviceRegistered? && AcceptedUnder(compare, s, e).Some?
  {
    s.enrollments[AcceptedUnder(compare, s, e).value].tenantId
  }

  /** After any run a device is what its last accepted registration says, under that enrollment's tenant;
      a device without one is as it was at the start. */
  lemma {:induction false} DeviceIsLastAccepted(compare: (Text, Text) -> bool, s: Store, rs: seq<Received>, id: Text)
    ensures var k := LastAccepted(compare, s, rs, id);
      Core(Lookup(Run(compare, s, rs).devices, id)) ==
      if k.None? then Core(Lookup(s.devices, id))
      else Core(Some(Fresh(rs[k.value], TenantFor(compare, Run(compare, s, rs[..k.value]), rs[k.value].event))))
  {
    hide Step, Lookup, Core, Fresh, TenantFor, AcceptedUnder;
    if rs == [] {
    } else {
      var n := |rs| - 1;
      DeviceIsLastAccepted(compare, s, rs[..n], id);
      DeviceStep(compare, Run(compare, s, rs[..n]), rs[n], id);
      var k := LastAccepted(compare, s, rs[..n], id);
      assert k.Some? ==> rs[..n][..k.value] == rs[..k.value];
    }
  }

  lemma DeviceStep(compare: (Text, Text) -> bool, s: Store, r: Received, id: Text)
    ensures Core(Lookup(Step(compare, s, r).devices, id)) ==
      if r.event.DeviceRegistered? && RegisteredId(r.event) == id && AcceptedUnder(compare, s, r.event).Some?
      then Core(Some(Fresh(r, TenantFor(compare, s, r.event))))
      else Core(Lookup(s.devices, id))
  {
    hide Lookup, Core, AcceptedUnder, Assigned, Seen;
    match r.event
    case DeviceRegistered(_, _, _, _, _, _) =>
      if AcceptedUnder(compare, s, r.event).Some? {
        AssignedLookup(s.devices, Fresh(r, TenantFor(compare, s, r.event)), id);
      }
    case Heartbeat(device) => SeenLookup(s.devices, device, r.nodeId, r.now, id);
    case _ =>
  }

  lemma AssignedLookup(devices: seq<Device>, d: Device, id: Text)
    ensures Core(Lookup(Assigned(devices, d), id)) == if d.id == id then Core(Some(d)) else Core(Lookup(devices, id))
  {
    var after := Assigned(devices, d);
    forall j | 0 <= j < |devices| ensures after[j].id == devices[j].id {}
    SameFind(devices, after, id);
    if FindDevice(devices, d.id) == |devices| { assert after[|devices|] == d; }
  }

  lemma SeenLookup(devices: seq<Device>, device: Text, nodeId: Text, now: Text, id: Text)
    ensures Core(Lookup(Seen(devices, device, nodeId, now), id)) == Core(Lookup(devices, id))
  {
    var after := Seen(devices, device, nodeId, now);
    forall j | 0 <= j < |devices| ensures after[j].id == devices[j].id {}
    SameFind(devices, after, id);
  }

  /** The event reaches a device: a registration that is accepted, or a heartbeat of a known device. */
  predicate Reaches(compare: (Text, Text) -> bool, s: Store, r: Received, id: Text) {
    || (r.event.DeviceRegistered? && RegisteredId(r.event) == id && AcceptedUnder(compare, s, r.event).Some?)
    || (r.event.Heartbeat? && r.event.device == id && Lookup(s.devices, id).Some?)
  }

  function LastReached(compare: (Text, Text) -> bool, s: Store, rs: seq<Received>, id: Text): (r: Option<nat>)
    ensures r.Some? ==> r.value < |rs| && Reaches(compare, Run(compare, s, rs[..r.value]), rs[r.value], id)
  {
    if rs == [] then None
    else
      var n := |rs| - 1;
      if Reaches(compare, Run(compare, s, rs[..n]), rs[n], id) then Some(n)
      else
        var k := LastReached(compare, s, rs[..n], id);
        assert k.Some? ==> rs[..n][..k.value] == rs[..k.value];
        k
  }

  /** The node a device was last heard from through, and when. */
  function Contact(d: Option<Device>): Option<(Option<Text>, Option<Text>)> {
    if d.None? then None else Some((d.value.preferredNodeId, d.value.lastSeenAt))
  }

  function Labels(d: Option<Device>): seq<Text> { if d.None? then [] else d.value.labels }

  /** After any run a device names the node and time of the last event that reached it, and keeps the
      members registrations leave alone. */
  lemma {:induction false} ContactIsLastReached(compare: (Text, Text) -> bool, s: Store, rs: seq<Received>, id: Text)
    ensures var k := LastReached(compare, s, rs, id);
      Contact(Lookup(Run(compare, s, rs).devices, id)) ==
      if k.None? then Contact(Lookup(s.devices, id)) else Some((Some(rs[k.value].nodeId), Some(rs[k.value].now)))
    ensures Labels(Lookup(Run(compare, s, rs).devices, id)) == Labels(Lookup(s.devices, id))
  {
    hide Step, Lookup, Contact, Labels, Reaches;
    if rs == [] {
    } else {
      var n := |rs| - 1;
      ContactIsLastReached(compare, s, rs[..n], id);
      ContactStep(compare, Run(compare, s, rs[..n]), rs[n], id);
    }
  }

  lemma ContactStep(compare: (Text, Text) -> bool, s: Store, r: Received, id: Text)
    ensures Contact(Lookup(Step(compare, s, r).devices, id)) ==
      if Reaches(compare, s, r, id) then Some((Some(r.nodeId), Some(r.now))) else Contact(Lookup(s.devices, id))
    ensures Labels(Lookup(Step(compare, s, r).devices, id)) == Labels(Lookup(s.devices, id))
  {
    hide Lookup, Contact, Labels, AcceptedUnder, Assigned, Seen;
    match r.event
    case DeviceRegistered(_, _, _, _, _, _) =>
      if AcceptedUnder(compare, s, r.event).Some? {
        AssignedContact(s.devices, Fresh(r, TenantFor(compare, s, r.event)), id);
        FreshContact(r, TenantFor(compare, s, r.event));
      }
    case Heartbeat(device) => SeenContact(s.devices, device, r.nodeId, r.now, id);
    case _ =>
  }

  lemma FreshContact(r: Received, tenantId: Text)
    requires r.event.DeviceRegistered?
    ensures Contact(Some(Fresh(r, tenantId))) == Some((Some(r.nodeId), Some(r.now)))
    ensures Fresh(r, tenantId).id == RegisteredId(r.event)
    ensures Fresh(r, tenantId).labels == []
  {
  }

  lemma AssignedContact(devices: seq<Device>, d: Device, id: Text)
    requires d.labels == []
    ensures Contact(Lookup(Assigned(devices, d), id)) ==
      if d.id == id then Contact(Some(d)) else Contact(Lookup(devices, id))
    ensures Labels(Lookup(Assigned(devices, d), id)) == Labels(Lookup(devices, id))
  {
    var after := Assigned(devices, d);
    forall j | 0 <= j < |devices| ensures after[j].id == devices[j].id {}
    SameFind(devices, after, id);
    if FindDevice(devices, d.id) == |devices| { assert after[|devices|] == d; }
  }

  lemma SeenContact(devices: seq<Device>, device: Text, nodeId: Text, now: Text, id: Text)
    ensures Contact(Lookup(Seen(devices, device, nodeId, now), id)) ==
      if device == id && Lookup(devices, id).Some? then
        Some((Some(nodeId), Some(now)))
      else Contact(Lookup(devices, id))
    ensures Labels(Lookup(Seen(devices, device, nodeId, now), id)) == Labels(Lookup(devices, id))
  {
    var after := Seen(devices, device, nodeId, now);
    forall j | 0 <= j < |devices| ensures after[j].id == devices[j].id {}
    SameFind(devices, after, id);
  }

  /** Longer lists with the same leading ids find a present device at the same place. */
  lemma {:induction false} SameFind(a: seq<Device>, b: seq<Device>, id: Text)
    requires |a| <= |b| && forall j :: 0 <= j < |a| ==> a[j].id == b[j].id
    ensures FindDevice(a, id) < |a| ==> FindDevice(b, id) == FindDevice(a, id)
    ensures FindDevice(a, id) == |a| ==> FindDevice(b, id) >= |a|
  {
    if a != [] && a[0].id != id { SameFind(a[1..], b[1..], id); }
  }

  // ---------- Inventories ----------

  /** The apps recorded for a device, in order. */
  function AppsOf(apps: seq<InstalledApp>, id: Text): seq<AppDetails> {
    if apps == [] then []
    else AppsOf(apps[..|apps| - 1], id) + if apps[|apps| - 1].deviceId == id then [apps[|apps| - 1].app] else []
  }

  function LastInventory(rs: seq<Received>, id: Text): Option<seq<AppDetails>> {
    if rs == [] then None
    else if rs[|rs| - 1].event.Inventory? && rs[|rs| - 1].event.owner == id then Some(rs[|rs| - 1].event.apps)
    else LastInventory(rs[..|rs| - 1], id)
  }

  lemma {:induction false} AppsOfJoined(a: seq<InstalledApp>, b: seq<InstalledApp>, id: Text)
    ensures AppsOf(a + b, id) == AppsOf(a, id) + AppsOf(b, id)
  {
    if b == [] { assert a + b == a; }
    else {
      AppsOfJoined(a, b[..|b| - 1], id);
      assert (a + b)[..|a + b| - 1] == a + b[..|b| - 1];
    }
  }

  lemma {:induction false} AppsOfWithout(apps: seq<InstalledApp>, owner: Text, id: Text)
    ensures AppsOf(Without(apps, owner), id) == if id == owner then [] else AppsOf(apps, id)
  {
    if apps == [] {
    } else {
      var last := apps[|apps| - 1];
      AppsOfWithout(apps[..|apps| - 1], owner, id);
      AppsOfOne(last, id);
      AppsOfJoined(Without(apps[..|apps| - 1], owner), if last.deviceId != owner then [last] else [], id);
    }
  }

  lemma AppsOfOne(a: InstalledApp, id: Text)
    ensures AppsOf([a], id) == if a.deviceId == id then [a.app] else []
  {
    assert [a][..0] == [];
  }

  lemma {:induction false} AppsOfStamped(apps: seq<AppDetails>, owner: Text, id: Text)
    ensures AppsOf(Stamped(apps, owner), id) == if id == owner then apps else []
  {
    if apps == [] {
    } else {
      var n := |apps| - 1;
      AppsOfStamped(apps[..n], owner, id);
      AppsOfOne(InstalledApp(owner, apps[n]), id);
      AppsOfJoined(Stamped(apps[..n], owner), [InstalledApp(owner, apps[n])], id);
      assert apps == apps[..n] + [apps[n]];
    }
  }

  /** After any run a device's apps are its last inventory, in order, whatever came in for other devices. */
  lemma {:induction false} AppsAreLastInventory(compare: (Text, Text) -> bool, s: Store, rs: seq<Received>, id: Text)
    ensures AppsOf(Run(compare, s, rs).installedApps, id) ==
      var last := LastInventory(rs, id); if last.Some? then last.value else AppsOf(s.installedApps, id)
  {
    hide Step, AppsOf;
    if rs == [] {
    } else {
      var n := |rs| - 1;
      AppsAreLastInventory(compare, s, rs[..n], id);
      InventoryStep(compare, Run(compare, s, rs[..n]), rs[n], id);
    }
  }

  lemma InventoryStep(compare: (Text, Text) -> bool, s: Store, r: Received, id: Text)
    ensures AppsOf(Step(compare, s, r).installedApps, id) ==
      if r.event.Inventory? && r.event.owner == id then r.event.apps else AppsOf(s.installedApps, id)
  {
    hide AppsOf;
    if r.event.Inventory? {
      AppsOfJoined(Without(s.installedApps, r.event.owner), Stamped(r.event.apps, r.event.owner), id);
      AppsOfWithout(s.installedApps, r.event.owner, id);
      AppsOfStamped(r.event.apps, r.event.owner, id);
    }
  }
}
