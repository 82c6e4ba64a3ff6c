/** The two sync services of one daemon as interleaved steps. A lock section is one step; what a
    service read under an earlier lock is carried along and may be stale. */
module SyncServices {
  import opened Wrappers
  import opened UpsStatuses
  import opened AttachedClients
  import opened Events
  import opened Daemons
  import opened DeviceSyncPass

  datatype DevicePhase =
    | DeviceIdle
    | Loading(snapshot: Devices, remote: seq<UpsDevice>, plan: Plan, versions: Versions)
    | Patching(snapshot: Devices, remote: seq<UpsDevice>, plan: Plan,
               added: seq<Completion>, rechecked: seq<Completion>, r: Resolver, patch: Patch)
    | Failing

  datatype StatusPhase =
    | StatusIdle
    | Polling(names: seq<DeviceName>)
    | Reporting(events: seq<SystemEvent>)

  /** What was done to the devices, in the order of the write lock sections. */
  datatype Mark =
    | Insertion(name: DeviceName, status: UpsStatus)
    | Removal(name: DeviceName)
    | Change(name: DeviceName, before: UpsStatus, after: UpsStatus)

  datatype World = World(
    daemon: Daemon,
    device: DevicePhase,
    status: StatusPhase,
    channel: seq<SystemEvent>,
    log: seq<Mark>)

  const INITIAL := World(NEW_DAEMON, DeviceIdle, StatusIdle, [], [])

  datatype Action =
    | Plan(remote: seq<UpsDevice>, plan: Daemons.Plan, versions: Versions)
    | QueryFailed
    | Collect(added: seq<Completion>, rechecked: seq<Completion>, r: Resolver)
    | ApplyPatch
    | ApplyFailure(names: seq<DeviceName>)
    | StopDevice
    | Snapshot(names: seq<DeviceName>)
    | ApplyVars(responses: seq<Option<UpsVar>>)
    | ApplyPolls(polls: seq<Poll>, r: Resolver)
    | Report
    | StopStatus

  ghost predicate Enabled(w: World, a: Action) {
    match a
    case Plan(remote, plan, versions) => w.device.DeviceIdle? && IsPlan(plan, w.daemon.devices, remote)
    case QueryFailed => w.device.DeviceIdle?
    case Collect(added, rechecked, r) =>
      w.device.Loading? && Joined(added, w.device.plan.added) && Joined(rechecked, w.device.plan.recheck)
    case ApplyPatch => w.device.Patching?
    case ApplyFailure(names) => w.device.Failing? && forall n :: n in names <==> n in w.daemon.devices
    case StopDevice => true
    case Snapshot(names) =>
      && w.status.StatusIdle? && names != []
      && forall n :: n in names <==> n in w.daemon.devices && NOCOMM !in w.daemon.devices[n].status
    case ApplyVars(responses) => w.status.Polling? && |responses| == |w.status.names|
    case ApplyPolls(polls, r) =>
      w.status.Polling? && |polls| == |w.status.names|
      && forall i | 0 <= i < |polls| :: polls[i].device == w.status.names[i]
    case Report => w.status.Reporting?
    case StopStatus => !w.status.Reporting?
  }

  function Marks(changes: seq<StatusChange>): seq<Mark> {
    if changes == [] then []
    else
      var last := changes[|changes| - 1];
      Marks(changes[..|changes| - 1]) + [Change(last.name, last.before, last.after)]
  }

  function Insertions(entries: seq<DeviceEntry>): seq<Mark> {
    if entries == [] then []
    else
      var last := entries[|entries| - 1];
      Insertions(entries[..|entries| - 1]) + [Insertion(last.name, last.status)]
  }

  function Removals(names: seq<DeviceName>): seq<Mark> {
    if names == [] then [] else Removals(names[..|names| - 1]) + [Removal(names[|names| - 1])]
  }

  function ChangesEvent(changes: seq<StatusChange>): seq<SystemEvent> {
    if changes == [] then [] else [DeviceStatusChange(changes)]
  }

  /** A step; all sends succeed. */
  ghost function Next(w: World, a: Action): World
    requires Enabled(w, a)
  {
    match a
    case Plan(remote, plan, versions) => w.(device := Loading(w.daemon.devices, remote, plan, versions))
    case QueryFailed => w.(device := Failing)
    case Collect(added, rechecked, r) =>
      var Loading(snapshot, remote, plan, versions) := w.device;
      (match PatchOf(plan, |remote|, added, rechecked, versions, r)
       case Some(patch) => w.(device := Patching(snapshot, remote, plan, added, rechecked, r, patch))
       case None => w.(device := Failing))
    case ApplyPatch =>
      var patch := w.device.patch;
      w.(daemon := Patched(w.daemon, patch), device := DeviceIdle,
         channel := w.channel + EventsOf(PatchBatch(w.daemon, patch)),
         log := w.log + Insertions(patch.added) + Removals(patch.deleted))
    case ApplyFailure(names) =>
      w.(daemon := Disconnected(w.daemon), device := DeviceIdle,
         channel := w.channel + EventsOf(FailureBatch(w.daemon, names)),
         log := w.log + Removals(names))
    case StopDevice => w.(device := DeviceIdle)
    case Snapshot(names) => w.(status := Polling(names))
    case ApplyVars(responses) =>
      var changes := VarsChanges(w.daemon.devices, responses);
      w.(daemon := w.daemon.(devices := VarsApplied(w.daemon.devices, responses)),
         status := Reporting(ChangesEvent(changes)), log := w.log + Marks(changes))
    case ApplyPolls(polls, r) =>
      var batch := PollsBatch(w.daemon.devices, polls, r);
      w.(daemon := w.daemon.(devices := PollsApplied(w.daemon.devices, polls, r)),
         status := Reporting(EventsOf(batch)), log := w.log + Marks(batch.changes))
    case Report => w.(channel := w.channel + w.status.events, status := StatusIdle)
    case StopStatus => w.(status := StatusIdle)
  }

  // ---------- Status sync never changes the key set ----------

  lemma {:induction false} VarsKeepKeys(devices: Devices, responses: seq<Option<UpsVar>>)
    ensures VarsApplied(devices, responses).Keys == devices.Keys
  {
    if responses != [] {
      VarsKeepKeys(devices, responses[..|responses| - 1]);
    }
  }

  lemma {:induction false} PollsKeepKeys(devices: Devices, polls: seq<Poll>, r: Resolver)
    ensures PollsApplied(devices, polls, r).Keys == devices.Keys
  {
    if polls != [] {
      PollsKeepKeys(devices, polls[..|polls| - 1], r);
    }
  }

  predicate OfStatusSync(a: Action) {
    a.Snapshot? || a.ApplyVars? || a.ApplyPolls? || a.Report? || a.StopStatus?
  }

  /** No step of the status sync changes the known names, the connection status or the versions. */
  lemma StatusSyncKeepsKeys(w: World, a: Action)
    requires Enabled(w, a) && OfStatusSync(a)
    ensures Next(w, a).daemon.devices.Keys == w.daemon.devices.Keys
    ensures Next(w, a).daemon == w.daemon.(devices := Next(w, a).daemon.devices)
    ensures Next(w, a).device == w.device
  {
    match a
    case ApplyVars(responses) => VarsKeepKeys(w.daemon.devices, responses);
    case ApplyPolls(polls, r) => PollsKeepKeys(w.daemon.devices, polls, r);
    case _ =>
  }

  // ---------- Invariants ----------

  /** The plan of a device sync is still about the known names when it is applied. */
  ghost predicate PlanIsCurrent(w: World) {
    match w.device
    case Loading(snapshot, remote, plan, _) =>
      snapshot.Keys == w.daemon.devices.Keys && IsPlan(plan, snapshot, remote)
    case Patching(snapshot, remote, plan, added, rechecked, r, patch) =>
      IsPass(w.daemon.devices, snapshot, remote, plan, added, rechecked, r, patch)
    case _ => true
  }

  lemma PlanStep(w: World, a: Action)
    requires PlanIsCurrent(w) && Enabled(w, a)
    ensures PlanIsCurrent(Next(w, a))
  {
    if OfStatusSync(a) {
      StatusSyncKeepsKeys(w, a);
    }
  }

  /** Online, having devices, and knowing either version are the same. */
  predicate OnlineIffDevices(d: Daemon) {
    && (d.status.Online? <==> d.devices != map[])
    && (d.status.Online? <==> d.protVer.Some?)
    && (d.status.Online? <==> d.ver.Some?)
  }

  lemma OnlineStep(w: World, a: Action)
    requires PlanIsCurrent(w) && OnlineIffDevices(w.daemon) && Enabled(w, a)
    ensures OnlineIffDevices(Next(w, a).daemon)
  {
    if OfStatusSync(a) {
      StatusSyncKeepsKeys(w, a);
      SameKeysSameEmptiness(w.daemon.devices, Next(w, a).daemon.devices);
    } else if a.ApplyPatch? {
      var p := w.device;
      SomeDeviceRemains(w.daemon, p.snapshot, p.remote, p.plan, p.added, p.rechecked, p.r, p.patch);
    }
  }

  lemma SameKeysSameEmptiness(a: Devices, b: Devices)
    requires a.Keys == b.Keys
    ensures a == map[] <==> b == map[]
  {
    if a == map[] {
      assert forall k :: k !in b.Keys;
    }
    if b == map[] {
      assert forall k :: k !in a.Keys;
    }
  }

  /** Folding the additions and removals of the channel gives the known names. */
  predicate ChannelTellsKeys(w: World) {
    && Fold({}, w.channel) == w.daemon.devices.Keys
    && (w.status.Reporting? ==> NeitherAddsNorRemoves(w.status.events))
  }

  predicate NeitherAddsNorRemoves(events: seq<SystemEvent>) {
    forall i | 0 <= i < |events| :: !events[i].DeviceAddition? && !events[i].DeviceRemoval?
  }

  lemma {:induction false} FoldNothing(keys: set<DeviceName>, events: seq<SystemEvent>)
    requires NeitherAddsNorRemoves(events)
    ensures Fold(keys, events) == keys
  {
    if events != [] {
      FoldNothing(keys, events[..|events| - 1]);
    }
  }

  lemma {:induction false} WantedKinds(offers: seq<Offer>)
    requires forall i | 0 <= i < |offers| ::
               offers[i].wanted ==> !offers[i].event.DeviceAddition? && !offers[i].event.DeviceRemoval?
    ensures NeitherAddsNorRemoves(Wanted(offers))
  {
    if offers != [] {
      WantedKinds(offers[..|offers| - 1]);
    }
  }

  lemma {:induction false} PollsNeitherAddNorRemove(devices: Devices, polls: seq<Poll>, r: Resolver)
    ensures PollsBatch(devices, polls, r).added == [] && PollsBatch(devices, polls, r).removed == []
  {
    if polls != [] {
      PollsNeitherAddNorRemove(devices, polls[..|polls| - 1], r);
    }
  }

  lemma PatchTellsKeys(channel: seq<SystemEvent>, d: Daemon, patch: Patch)
    requires Fold({}, channel) == d.devices.Keys
    ensures Fold({}, channel + EventsOf(PatchBatch(d, patch))) == Patched(d, patch).devices.Keys
  {
    var batch := PatchBatch(d, patch);
    FoldAppend({}, channel, EventsOf(batch));
    FoldBatch(d.devices.Keys, batch);
    InsertedKeys(d.devices, patch.added);
    RedescribedKeys(Inserted(d.devices, patch.added), patch.updated);
  }

  lemma FailureTellsKeys(channel: seq<SystemEvent>, d: Daemon, names: seq<DeviceName>)
    requires Fold({}, channel) == d.devices.Keys && forall n :: n in names <==> n in d.devices
    ensures Fold({}, channel + EventsOf(FailureBatch(d, names))) == {}
  {
    FoldAppend({}, channel, EventsOf(FailureBatch(d, names)));
    FoldBatch(d.devices.Keys, FailureBatch(d, names));
  }

  lemma PollsTellNoKeys(devices: Devices, polls: seq<Poll>, r: Resolver)
    ensures NeitherAddsNorRemoves(EventsOf(PollsBatch(devices, polls, r)))
  {
    PollsNeitherAddNorRemove(devices, polls, r);
    WantedKinds(Offers(PollsBatch(devices, polls, r)));
  }

  lemma ChannelStep(w: World, a: Action)
    requires ChannelTellsKeys(w) && Enabled(w, a)
    ensures ChannelTellsKeys(Next(w, a))
  {
    if OfStatusSync(a) {
      StatusSyncKeepsKeys(w, a);
    }
    match a
    case ApplyPatch => PatchTellsKeys(w.channel, w.daemon, w.device.patch);
    case ApplyFailure(names) => FailureTellsKeys(w.channel, w.daemon, names);
    case ApplyPolls(polls, r) => PollsTellNoKeys(w.daemon.devices, polls, r);
    case Report =>
      FoldAppend({}, w.channel, w.status.events);
      FoldNothing(w.daemon.devices.Keys, w.status.events);
    case _ =>
  }
}
