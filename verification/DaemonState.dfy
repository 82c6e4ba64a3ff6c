/** The in-memory state of one daemon and what the two sync services do to it under its lock. */
module Daemons {
  import opened Wrappers
  import opened Values
  import opened UpsStatuses
  import opened AttachedClients
  import opened Events

  const UPS_STATUS := "ups.status"
  const NOCOMM_STATUS: UpsStatus := {NOCOMM}

  datatype VarDetail =
    | StringDetail(maxLen: nat)
    | NumberDetail
    | EnumDetail(options: seq<Value>)
    | RangeDetail(min: Value, max: Value)

  datatype DeviceEntry = DeviceEntry(
    attached: seq<ClientInfo>,
    commands: seq<string>,
    desc: string,
    name: DeviceName,
    rwVariables: map<string, VarDetail>,
    status: UpsStatus,
    variables: map<string, Value>)

  type Devices = map<DeviceName, DeviceEntry>

  datatype Daemon = Daemon(
    devices: Devices,
    status: ConnectionStatus,
    protVer: Option<string>,
    ver: Option<string>)

  const NEW_DAEMON := Daemon(map[], NotReady, None, None)

  function StatusOf(value: Value): UpsStatus {
    if value.Text? then Parse(value.text) else {}
  }

  function MarkedAsDead(entry: DeviceEntry, status: UpsStatus): DeviceEntry {
    entry.(status := status, commands := [], rwVariables := map[], variables := map[])
  }

  // ---------- What the daemon answers ----------

  datatype UpsDevice = UpsDevice(name: DeviceName, desc: string)

  /** The answers to the requests that load a device. */
  datatype Details = Details(
    ips: seq<Addr>,
    commands: seq<string>,
    rwVariables: map<string, VarDetail>,
    variables: map<string, Value>)

  /** How a load task of one device ends. */
  datatype Load = Loaded(details: Details) | LoadFailed | Panicked

  datatype Completion = Completion(device: UpsDevice, load: Load)

  /** The entry that a device is loaded into. */
  function LoadedEntry(device: UpsDevice, d: Details, r: Resolver): DeviceEntry {
    DeviceEntry(
      Attach([], d.ips, r), d.commands, device.desc, device.name, d.rwVariables,
      if UPS_STATUS in d.variables then StatusOf(d.variables[UPS_STATUS]) else {},
      d.variables)
  }

  function PlaceholderEntry(name: DeviceName): DeviceEntry {
    DeviceEntry([], [], "", name, map[], NOCOMM_STATUS, map[])
  }

  datatype UpsVar = UpsVar(device: DeviceName, name: string, value: Value)

  /** The answers to the requests of a full sync of one device. */
  datatype Poll = Poll(device: DeviceName, answer: Option<PollAnswer>)

  datatype PollAnswer = PollAnswer(variables: map<string, Value>, ips: seq<Addr>, commands: seq<string>)

  // ---------- Device sync ----------

  /** What the read lock section of a device sync finds out. */
  datatype Plan = Plan(
    deleted: seq<DeviceName>,
    updated: seq<UpsDevice>,
    added: seq<UpsDevice>,
    recheck: seq<UpsDevice>)

  datatype Versions = Versions(protVer: string, ver: string)

  datatype Patch = Patch(
    added: seq<DeviceEntry>,
    deleted: seq<DeviceName>,
    updated: seq<UpsDevice>,
    versions: Versions)

  function Reported(remote: seq<UpsDevice>): set<DeviceName> {
    set i | 0 <= i < |remote| :: remote[i].name
  }

  datatype Kind = IsNew | IsSilent | IsRedescribed | IsUnchanged

  function KindOf(devices: Devices, d: UpsDevice): Kind {
    if d.name !in devices then IsNew
    else if NOCOMM in devices[d.name].status then IsSilent
    else if devices[d.name].desc != d.desc then IsRedescribed
    else IsUnchanged
  }

  /** The reported devices of one kind, in order. */
  function OfKind(devices: Devices, remote: seq<UpsDevice>, kind: Kind): seq<UpsDevice> {
    if remote == [] then []
    else
      var last := remote[|remote| - 1];
      OfKind(devices, remote[..|remote| - 1], kind) + (if KindOf(devices, last) == kind then [last] else [])
  }

  ghost predicate IsPlan(plan: Plan, devices: Devices, remote: seq<UpsDevice>) {
    && (forall n :: n in plan.deleted <==> n in devices && n !in Reported(remote))
    && plan.updated == OfKind(devices, remote, IsRedescribed)
    && plan.added == OfKind(devices, remote, IsNew)
    && plan.recheck == OfKind(devices, remote, IsSilent)
  }

  /** The entries of the finished load tasks: every new device gets one unless its task panicked, a
      rechecked device only if it could be loaded. */
  function NewEntries(done: seq<Completion>, r: Resolver): seq<DeviceEntry> {
    if done == [] then []
    else
      var last := done[|done| - 1];
      NewEntries(done[..|done| - 1], r) +
      match last.load
      case Loaded(d) => [LoadedEntry(last.device, d, r)]
      case LoadFailed => [PlaceholderEntry(last.device.name)]
      case Panicked => []
  }

  function RecheckedEntries(done: seq<Completion>, r: Resolver): seq<DeviceEntry> {
    if done == [] then []
    else
      var last := done[|done| - 1];
      RecheckedEntries(done[..|done| - 1], r) +
      match last.load
      case Loaded(d) => [LoadedEntry(last.device, d, r)]
      case _ => []
  }

  function Failures(done: seq<Completion>): nat {
    if done == [] then 0
    else Failures(done[..|done| - 1]) + (if done[|done| - 1].load.Loaded? then 0 else 1)
  }

  /** The patch, or None if every reported device has failed. */
  function PatchOf(plan: Plan, total: nat, added: seq<Completion>, rechecked: seq<Completion>,
                   versions: Versions, r: Resolver): Option<Patch> {
    if Failures(added) + Failures(rechecked) < total
    then Some(Patch(NewEntries(added, r) + RecheckedEntries(rechecked, r), plan.deleted, plan.updated, versions))
    else None
  }

  function Inserted(devices: Devices, entries: seq<DeviceEntry>): Devices {
    if entries == [] then devices
    else
      var last := entries[|entries| - 1];
      Inserted(devices, entries[..|entries| - 1])[last.name := last]
  }

  function Redescribed(devices: Devices, updated: seq<UpsDevice>): Devices {
    if updated == [] then devices
    else
      var before := Redescribed(devices, updated[..|updated| - 1]);
      var last := updated[|updated| - 1];
      if last.name in before then before[last.name := before[last.name].(desc := last.desc)] else before
  }

  function Removed(devices: Devices, deleted: seq<DeviceName>): Devices {
    devices - (set n | n in deleted)
  }

  /** The daemon after a successful pass of the device sync. */
  function Patched(d: Daemon, patch: Patch): Daemon {
    Daemon(
      Removed(Redescribed(Inserted(d.devices, patch.added), patch.updated), patch.deleted),
      Online, Some(patch.versions.protVer), Some(patch.versions.ver))
  }

  /** The daemon after a failed pass. */
  function Disconnected(d: Daemon): Daemon {
    if d.status.Dead? then d.(devices := map[]) else Daemon(map[], Dead, None, None)
  }

  // ---------- Status sync ----------

  /** A partial sync: one answered variable. */
  function VarApplied(devices: Devices, v: UpsVar): Devices {
    if v.device in devices then
      var entry := devices[v.device];
      devices[v.device := entry.(status := StatusOf(v.value), variables := entry.variables[v.name := v.value])]
    else devices
  }

  function VarChange(devices: Devices, v: UpsVar): seq<StatusChange> {
    if v.device in devices && devices[v.device].status != StatusOf(v.value)
    then [StatusChange(v.device, devices[v.device].status, StatusOf(v.value))]
    else []
  }

  function VarsApplied(devices: Devices, vars: seq<Option<UpsVar>>): Devices {
    if vars == [] then devices
    else
      var before := VarsApplied(devices, vars[..|vars| - 1]);
      match vars[|vars| - 1]
      case Some(v) => VarApplied(before, v)
      case None => before
  }

  function VarsChanges(devices: Devices, vars: seq<Option<UpsVar>>): seq<StatusChange> {
    if vars == [] then []
    else
      VarsChanges(devices, vars[..|vars| - 1]) +
      match vars[|vars| - 1]
      case Some(v) => VarChange(VarsApplied(devices, vars[..|vars| - 1]), v)
      case None => []
  }

  /** A full sync of one device. */
  function PolledEntry(entry: DeviceEntry, a: PollAnswer, r: Resolver): DeviceEntry {
    entry.(
      status := if UPS_STATUS in a.variables then StatusOf(a.variables[UPS_STATUS]) else entry.status,
      attached := Reconciled(entry.attached, a.ips, r),
      variables := a.variables,
      commands := a.commands)
  }

  function PollApplied(devices: Devices, p: Poll, r: Resolver): Devices {
    if p.device !in devices then devices
    else devices[p.device := match p.answer
                             case Some(a) => PolledEntry(devices[p.device], a, r)
                             case None => MarkedAsDead(devices[p.device], NOCOMM_STATUS)]
  }

  /** An answered device reports a changed status only; a failed one reports even an unchanged one. */
  function PollChange(devices: Devices, p: Poll): seq<StatusChange> {
    if p.device !in devices then []
    else
      var before := devices[p.device].status;
      match p.answer
      case Some(a) =>
        if UPS_STATUS in a.variables && StatusOf(a.variables[UPS_STATUS]) != before
        then [StatusChange(p.device, before, StatusOf(a.variables[UPS_STATUS]))]
        else []
      case None => [StatusChange(p.device, before, NOCOMM_STATUS)]
  }

  /** The client events of an answered device, and that it was updated. */
  function ClientsBatch(b: Batch, device: DeviceName, gone: seq<Addr>, arrived: seq<Addr>): Batch {
    b.(disconnections := b.disconnections + if gone == [] then [] else [DeviceClients(device, gone)],
       connections := b.connections + if arrived == [] then [] else [DeviceClients(device, arrived)],
       updated := b.updated + [device])
  }

  function PollBatch(b: Batch, devices: Devices, p: Poll): Batch {
    var changed := b.(changes := b.changes + PollChange(devices, p));
    if p.device !in devices || p.answer.None? then changed
    else
      var attached := Addrs(devices[p.device].attached);
      ClientsBatch(changed, p.device, Without(attached, p.answer.value.ips), Without(p.answer.value.ips, attached))
  }

  function PollsApplied(devices: Devices, polls: seq<Poll>, r: Resolver): Devices {
    if polls == [] then devices
    else PollApplied(PollsApplied(devices, polls[..|polls| - 1], r), polls[|polls| - 1], r)
  }

  function PollsBatch(devices: Devices, polls: seq<Poll>, r: Resolver): Batch {
    if polls == [] then EMPTY_BATCH
    else
      var most := polls[..|polls| - 1];
      PollBatch(PollsBatch(devices, most, r), PollsApplied(devices, most, r), polls[|polls| - 1])
  }

  // ---------- The state object ----------

  class DaemonState {
    var devices: Devices
    var status: ConnectionStatus
    var protVer: Option<string>
    var ver: Option<string>

    ghost function Value(): Daemon
      reads this
    {
      Daemon(devices, status, protVer, ver)
    }

    constructor ()
      ensures Value() == NEW_DAEMON
    {
      devices, status, protVer, ver := map[], NotReady, None, None;
    }

    /** The read lock section of a device sync. */
    method Diff(remote: seq<UpsDevice>) returns (plan: Plan)
      ensures IsPlan(plan, devices, remote)
    {
      var deleted: seq<DeviceName> := [];
      var keys := devices.Keys;
      while keys != {}
        invariant keys <= devices.Keys
        invariant forall n :: n in deleted <==> n in devices.Keys - keys && n !in Reported(remote)
        decreases |keys|
      {
        var name :| name in keys;
        if forall i | 0 <= i < |remote| :: remote[i].name != name {
          deleted := deleted + [name];
        }
        keys := keys - {name};
      }
      var updated, added, recheck := [], [], [];
      for i := 0 to |remote|
        invariant updated == OfKind(devices, remote[..i], IsRedescribed)
        invariant added == OfKind(devices, remote[..i], IsNew)
        invariant recheck == OfKind(devices, remote[..i], IsSilent)
      {
        assert remote[..i + 1][..i] == remote[..i];
        if remote[i].name in devices {
          var local := devices[remote[i].name];
          if Has(local.status, NOCOMM_STATUS) {
            recheck := recheck + [remote[i]];
          } else if local.desc != remote[i].desc {
            updated := updated + [remote[i]];
          }
        } else {
          added := added + [remote[i]];
        }
      }
      assert remote[..|remote|] == remote;
      plan := Plan(deleted, updated, added, recheck);
    }

    /** The insertions of a pass. */
    method InsertAll(entries: seq<DeviceEntry>, events: EventBatch)
      modifies this`devices, events
      ensures devices == Inserted(old(devices), entries)
      ensures events.Contents() == old(events.Contents()).(added := old(events.added) + EntryNames(entries))
    {
      for i := 0 to |entries|
        invariant devices == Inserted(old(devices), entries[..i])
        invariant events.Contents()
                  == old(events.Contents()).(added := old(events.added) + EntryNames(entries[..i]))
      {
        assert entries[..i + 1][..i] == entries[..i];
        events.NewDevice(entries[i].name);
        devices := devices[entries[i].name := entries[i]];
      }
      assert entries[..|entries|] == entries;
    }

    /** The new descriptions of a pass. */
    method RedescribeAll(updated: seq<UpsDevice>, events: EventBatch)
      modifies this`devices, events
      ensures devices == Redescribed(old(devices), updated)
      ensures events.Contents()
              == old(events.Contents()).(updated := old(events.updated) + KnownNames(old(devices), updated))
    {
      for i := 0 to |updated|
        invariant devices == Redescribed(old(devices), updated[..i])
        invariant events.Contents()
                  == old(events.Contents()).(updated := old(events.updated) + KnownNames(old(devices), updated[..i]))
      {
        assert updated[..i + 1][..i] == updated[..i];
        var name := updated[i].name;
        RedescribedKeys(old(devices), updated[..i]);
        if name in devices {
          devices := devices[name := devices[name].(desc := updated[i].desc)];
          events.UpdatedDevice(name);
        }
      }
      assert updated[..|updated|] == updated;
    }

    /** The removals of a pass. */
    method RemoveAll(deleted: seq<DeviceName>, events: EventBatch)
      modifies this`devices, events
      ensures devices == Removed(old(devices), deleted)
      ensures events.Contents() == old(events.Contents()).(removed := old(events.removed) + deleted)
    {
      for i := 0 to |deleted|
        invariant devices == Removed(old(devices), deleted[..i])
        invariant events.Contents()
                  == old(events.Contents()).(removed := old(events.removed) + deleted[..i])
      {
        devices := devices - {deleted[i]};
        events.RemovedDevice(deleted[i]);
      }
      assert deleted[..|deleted|] == deleted;
    }

    /** The write lock section of a successful pass, which also sends the events. */
    method ApplyPatch(patch: Patch, channel: EventChannel)
      modifies this, channel
      ensures Value() == Patched(old(Value()), patch)
      ensures channel.HasSent(old(channel.sent), old(channel.room), Offers(PatchBatch(old(Value()), patch)))
    {
      var events := new EventBatch();
      InsertAll(patch.added, events);
      RedescribeAll(patch.updated, events);
      RemoveAll(patch.deleted, events);
      if status != Online {
        status := Online;
        events.SetUpsdStatus(Online);
      }
      protVer, ver := Some(patch.versions.protVer), Some(patch.versions.ver);
      assert events.Contents() == PatchBatch(old(Value()), patch);
      var ok := events.Send(channel);
    }

    /** The write lock section of a failed pass. `names` are the keys in the order of iteration. */
    method ApplyFailure(names: seq<DeviceName>, channel: EventChannel)
      requires forall n :: n in names <==> n in devices
      modifies this, channel
      ensures Value() == Disconnected(old(Value()))
      ensures channel.HasSent(old(channel.sent), old(channel.room), Offers(FailureBatch(old(Value()), names)))
    {
      var events := new EventBatch();
      for i := 0 to |names|
        invariant fresh(events) && Value() == old(Value())
        invariant channel.sent == old(channel.sent) && channel.room == old(channel.room)
        invariant events.Contents() == EMPTY_BATCH.(removed := names[..i])
      {
        events.RemovedDevice(names[i]);
      }
      assert names[..|names|] == names;
      if status != Dead {
        status, protVer, ver := Dead, None, None;
        events.SetUpsdStatus(Dead);
      }
      devices := map[];
      assert events.Contents() == FailureBatch(old(Value()), names);
      var ok := events.Send(channel);
    }

    /** The read lock section of a status sync: the devices that communicate. */
    method SnapshotActive() returns (names: seq<DeviceName>)
      ensures forall n :: n in names <==> n in devices && NOCOMM !in devices[n].status
      ensures forall i, j | 0 <= i < j < |names| :: names[i] != names[j]
    {
      names := [];
      var keys := devices.Keys;
      while keys != {}
        invariant keys <= devices.Keys
        invariant forall n :: n in names <==> n in devices.Keys - keys && NOCOMM !in devices[n].status
        invariant forall i, j | 0 <= i < j < |names| :: names[i] != names[j]
        decreases |keys|
      {
        var name :| name in keys;
        if !Has(devices[name].status, NOCOMM_STATUS) {
          names := names + [name];
        }
        keys := keys - {name};
      }
    }

    /** The write lock section of a partial sync. */
    method ApplyVars(responses: seq<Option<UpsVar>>) returns (changes: seq<StatusChange>)
      modifies this`devices
      ensures devices == VarsApplied(old(devices), responses)
      ensures changes == VarsChanges(old(devices), responses)
    {
      changes := [];
      for i := 0 to |responses|
        invariant devices == VarsApplied(old(devices), responses[..i])
        invariant changes == VarsChanges(old(devices), responses[..i])
      {
        assert responses[..i + 1][..i] == responses[..i];
        if responses[i].Some? {
          var variable := responses[i].value;
          if variable.device in devices {
            var entry := devices[variable.device];
            var oldStatus, newStatus := entry.status, StatusOf(variable.value);
            devices := devices[variable.device := entry.(
              status := newStatus, variables := entry.variables[variable.name := variable.value])];
            if oldStatus != newStatus {
              changes := changes + [StatusChange(variable.device, oldStatus, newStatus)];
            }
          }
        }
      }
      assert responses[..|responses|] == responses;
    }

    /** One turn of the loop of a full sync. */
    method ApplyPoll(poll: Poll, r: Resolver, events: EventBatch)
      modifies this`devices, events
      ensures devices == PollApplied(old(devices), poll, r)
      ensures events.Contents() == PollBatch(old(events.Contents()), old(devices), poll)
    {
      if poll.device in devices {
        var entry := devices[poll.device];
        match poll.answer
        case Some(answer) =>
          var newEntry := SyncEntry(entry, poll, answer, r, events);
          devices := devices[poll.device := newEntry];
        case None =>
          events.ChangeStatus(poll.device, entry.status, NOCOMM_STATUS);
          devices := devices[poll.device := MarkedAsDead(entry, NOCOMM_STATUS)];
      }
    }

    /** The write lock section of a full sync. */
    method ApplyPolls(polls: seq<Poll>, r: Resolver) returns (events: EventBatch)
      modifies this`devices
      ensures fresh(events)
      ensures devices == PollsApplied(old(devices), polls, r)
      ensures events.Contents() == PollsBatch(old(devices), polls, r)
    {
      events := new EventBatch();
      for i := 0 to |polls|
        invariant fresh(events)
        invariant devices == PollsApplied(old(devices), polls[..i], r)
        invariant events.Contents() == PollsBatch(old(devices), polls[..i], r)
      {
        assert polls[..i + 1][..i] == polls[..i];
        ApplyPoll(polls[i], r, events);
      }
      assert polls[..|polls|] == polls;
    }
  }

  /** What a full sync does to the entry of a device that answered. */
  method SyncEntry(entry: DeviceEntry, poll: Poll, answer: PollAnswer, r: Resolver, events: EventBatch)
    returns (newEntry: DeviceEntry)
    requires poll.answer == Some(answer)
    modifies events
    ensures newEntry == PolledEntry(entry, answer, r)
    ensures events.Contents() == PollBatch(old(events.Contents()), map[poll.device := entry], poll)
  {
    newEntry := entry;
    if UPS_STATUS in answer.variables {
      var newStatus := StatusOf(answer.variables[UPS_STATUS]);
      var oldStatus := entry.status;
      if oldStatus != newStatus {
        newEntry := newEntry.(status := newStatus);
        events.ChangeStatus(poll.device, oldStatus, newStatus);
      }
    }
    assert events.Contents()
        == old(events.Contents()).(changes := old(events.changes) + PollChange(map[poll.device := entry], poll));
    var attached, connected, disconnected := Reconcile(entry.attached, answer.ips, r);
    ReportClients(poll.device, connected, disconnected, events);
    newEntry := newEntry.(attached := attached, variables := answer.variables, commands := answer.commands);
  }

  method ReportClients(device: DeviceName, connected: seq<Addr>, disconnected: seq<Addr>, events: EventBatch)
    modifies events
    ensures events.Contents() == ClientsBatch(old(events.Contents()), device, disconnected, connected)
  {
    if disconnected != [] {
      events.ClientDisconnect(device, disconnected);
    }
    if connected != [] {
      events.ClientConnect(device, connected);
    }
    events.UpdatedDevice(device);
  }

  /** The part of a device sync between its locks: the loops over the finished load tasks. */
  method CollectPatch(plan: Plan, total: nat, added: seq<Completion>, rechecked: seq<Completion>,
                      versions: Versions, r: Resolver) returns (result: Option<Patch>)
    ensures result == PatchOf(plan, total, added, rechecked, versions, r)
  {
    var failureCount := 0;
    var entries := [];
    for i := 0 to |added|
      invariant failureCount == Failures(added[..i]) && entries == NewEntries(added[..i], r)
    {
      assert added[..i + 1][..i] == added[..i];
      match added[i].load
      case Loaded(d) => entries := entries + [LoadedEntry(added[i].device, d, r)];
      case LoadFailed =>
        failureCount := failureCount + 1;
        entries := entries + [PlaceholderEntry(added[i].device.name)];
      case Panicked => failureCount := failureCount + 1;
    }
    assert added[..|added|] == added;
    for i := 0 to |rechecked|
      invariant failureCount == Failures(added) + Failures(rechecked[..i])
      invariant entries == NewEntries(added, r) + RecheckedEntries(rechecked[..i], r)
    {
      assert rechecked[..i + 1][..i] == rechecked[..i];
      match rechecked[i].load
      case Loaded(d) => entries := entries + [LoadedEntry(rechecked[i].device, d, r)];
      case _ => failureCount := failureCount + 1;
    }
    assert rechecked[..|rechecked|] == rechecked;
    if failureCount < total {
      result := Some(Patch(entries, plan.deleted, plan.updated, versions));
    } else {
      result := None;
    }
  }

  function EntryNames(entries: seq<DeviceEntry>): seq<DeviceName> {
    if entries == [] then [] else EntryNames(entries[..|entries| - 1]) + [entries[|entries| - 1].name]
  }

  function KnownNames(devices: Devices, updated: seq<UpsDevice>): seq<DeviceName> {
    if updated == [] then []
    else
      var last := updated[|updated| - 1];
      KnownNames(devices, updated[..|updated| - 1]) + if last.name in devices then [last.name] else []
  }

  lemma {:induction false} RedescribedKeys(devices: Devices, updated: seq<UpsDevice>)
    ensures Redescribed(devices, updated).Keys == devices.Keys
  {
    if updated != [] {
      RedescribedKeys(devices, updated[..|updated| - 1]);
    }
  }

  /** The events of a successful pass. */
  function PatchBatch(d: Daemon, patch: Patch): Batch {
    Batch(if d.status == Online then None else Some(Online),
          EntryNames(patch.added), patch.deleted, [],
          KnownNames(Inserted(d.devices, patch.added), patch.updated), [], [])
  }

  /** The events of a failed pass. */
  function FailureBatch(d: Daemon, names: seq<DeviceName>): Batch {
    EMPTY_BATCH.(removed := names, upsdStatus := if d.status == Dead then None else Some(Dead))
  }
}
