/** What one pass of the device sync establishes. */
module DeviceSyncPass {
  import opened Wrappers
  import opened UpsStatuses
  import opened AttachedClients
  import opened Events
  import opened Daemons

  function DevicesOf(done: seq<Completion>): (devices: seq<UpsDevice>)
    ensures |devices| == |done| && forall i | 0 <= i < |done| :: devices[i] == done[i].device
  {
    seq(|done|, i requires 0 <= i < |done| => done[i].device)
  }

  /** Every load task has finished, in any order. */
  ghost predicate Joined(done: seq<Completion>, devices: seq<UpsDevice>) {
    multiset(DevicesOf(done)) == multiset(devices)
  }

  lemma JoinedHas(done: seq<Completion>, devices: seq<UpsDevice>, d: UpsDevice)
    requires Joined(done, devices)
    ensures |done| == |devices|
    ensures d in devices <==> exists i :: 0 <= i < |done| && done[i].device == d
  {
    assert |multiset(DevicesOf(done))| == |multiset(devices)|;
    assert d in devices <==> d in multiset(devices);
    assert d in DevicesOf(done) <==> d in multiset(DevicesOf(done));
    if i :| 0 <= i < |done| && done[i].device == d {
      assert DevicesOf(done)[i] == d;
    }
  }

  lemma {:induction false} OfKindHas(devices: Devices, remote: seq<UpsDevice>, kind: Kind, d: UpsDevice)
    ensures d in OfKind(devices, remote, kind) <==> d in remote && KindOf(devices, d) == kind
  {
    if remote != [] {
      OfKindHas(devices, remote[..|remote| - 1], kind, d);
      assert remote == remote[..|remote| - 1] + [remote[|remote| - 1]];
    }
  }

  lemma {:induction false} KindsAddUp(devices: Devices, remote: seq<UpsDevice>)
    ensures |OfKind(devices, remote, IsNew)| + |OfKind(devices, remote, IsSilent)|
            + |OfKind(devices, remote, IsRedescribed)| + |OfKind(devices, remote, IsUnchanged)| == |remote|
  {
    if remote != [] {
      KindsAddUp(devices, remote[..|remote| - 1]);
    }
  }

  /** The plan adds what is reported and not known, rechecks what is known and silent, and redescribes
      what is known, not silent and reported with another description; it deletes what is known and not
      reported. */
  lemma PlanMeans(devices: Devices, remote: seq<UpsDevice>, plan: Plan, d: UpsDevice, n: DeviceName)
    requires IsPlan(plan, devices, remote)
    ensures d in plan.added <==> d in remote && d.name !in devices
    ensures d in plan.recheck <==> d in remote && d.name in devices && NOCOMM in devices[d.name].status
    ensures d in plan.updated
            <==> d in remote && d.name in devices && NOCOMM !in devices[d.name].status
                 && devices[d.name].desc != d.desc
    ensures n in plan.deleted <==> n in devices && forall i | 0 <= i < |remote| :: remote[i].name != n
  {
    OfKindHas(devices, remote, IsNew, d);
    OfKindHas(devices, remote, IsSilent, d);
    OfKindHas(devices, remote, IsRedescribed, d);
  }

  // ---------- Keys ----------

  lemma {:induction false} InsertedKeys(devices: Devices, entries: seq<DeviceEntry>)
    ensures Inserted(devices, entries).Keys == devices.Keys + (set n | n in EntryNames(entries))
  {
    if entries != [] {
      InsertedKeys(devices, entries[..|entries| - 1]);
    }
  }

  lemma {:induction false} NamesAppend(a: seq<DeviceEntry>, b: seq<DeviceEntry>)
    ensures EntryNames(a + b) == EntryNames(a) + EntryNames(b)
  {
    if b == [] {
      assert a + b == a;
    } else {
      assert (a + b)[..|a + b| - 1] == a + b[..|b| - 1];
      NamesAppend(a, b[..|b| - 1]);
    }
  }

  function EntryOf(c: Completion, r: Resolver): DeviceEntry {
    if c.load.Loaded? then LoadedEntry(c.device, c.load.details, r) else PlaceholderEntry(c.device.name)
  }

  lemma OneName(e: DeviceEntry)
    ensures EntryNames([e]) == [e.name] && EntryNames([]) == []
  {
    assert [e][..0] == [];
  }

  /** Some task for the name produced an entry. */
  predicate Delivers(c: Completion, n: DeviceName, recheck: bool) {
    c.device.name == n && (c.load.Loaded? || (c.load.LoadFailed? && !recheck))
  }

  lemma DeliversLast(done: seq<Completion>, most: seq<Completion>, n: DeviceName, recheck: bool)
    requires done != [] && most == done[..|done| - 1]
    ensures (exists i :: 0 <= i < |done| && Delivers(done[i], n, recheck))
            <==> Delivers(done[|done| - 1], n, recheck)
                 || exists i :: 0 <= i < |most| && Delivers(most[i], n, recheck)
  {
    if i :| 0 <= i < |done| && Delivers(done[i], n, recheck) {
      assert i < |most| ==> most[i] == done[i];
    }
    if i :| 0 <= i < |most| && Delivers(most[i], n, recheck) {
      assert most[i] == done[i];
    }
  }

  lemma {:induction false} NewEntryNames(done: seq<Completion>, r: Resolver, n: DeviceName)
    ensures n in EntryNames(NewEntries(done, r)) <==> exists i :: 0 <= i < |done| && Delivers(done[i], n, false)
  {
    if done != [] {
      var most := done[..|done| - 1];
      NewEntryNames(most, r, n);
      var e := EntryOf(done[|done| - 1], r);
      NamesAppend(NewEntries(most, r), [e]);
      OneName(e);
      DeliversLast(done, most, n, false);
      assert NewEntries(most, r) + [] == NewEntries(most, r);
    }
  }

  lemma {:induction false} RecheckedNames(done: seq<Completion>, r: Resolver, n: DeviceName)
    ensures n in EntryNames(RecheckedEntries(done, r)) <==> exists i :: 0 <= i < |done| && Delivers(done[i], n, true)
  {
    if done != [] {
      var most := done[..|done| - 1];
      RecheckedNames(most, r, n);
      var e := EntryOf(done[|done| - 1], r);
      NamesAppend(RecheckedEntries(most, r), [e]);
      OneName(e);
      DeliversLast(done, most, n, true);
      assert RecheckedEntries(most, r) + [] == RecheckedEntries(most, r);
    }
  }

  /** A finished pass: a plan over a snapshot, all its tasks joined, and a patch. `devices` are the
      devices when the patch is applied; they may have changed since, but not their names. */
  ghost predicate IsPass(devices: Devices, snapshot: Devices, remote: seq<UpsDevice>, plan: Plan,
                         added: seq<Completion>, rechecked: seq<Completion>, r: Resolver, patch: Patch) {
    && devices.Keys == snapshot.Keys
    && IsPlan(plan, snapshot, remote)
    && Joined(added, plan.added) && Joined(rechecked, plan.recheck)
    && PatchOf(plan, |remote|, added, rechecked, patch.versions, r) == Some(patch)
  }

  lemma ReportedHas(remote: seq<UpsDevice>, d: UpsDevice)
    requires d in remote
    ensures d.name in Reported(remote)
  {
    var i :| 0 <= i < |remote| && remote[i] == d;
  }

  /** The names afterwards: a reported device is known unless it is new and its load task panicked. */
  lemma NamesAfterPass(d: Daemon, snapshot: Devices, remote: seq<UpsDevice>, plan: Plan,
                       added: seq<Completion>, rechecked: seq<Completion>, r: Resolver, patch: Patch,
                       n: DeviceName)
    requires IsPass(d.devices, snapshot, remote, plan, added, rechecked, r, patch)
    ensures n in Patched(d, patch).devices
            <==> n in Reported(remote)
                 && (n in d.devices || exists i :: 0 <= i < |added| && Delivers(added[i], n, false))
  {
    InsertedKeys(d.devices, patch.added);
    RedescribedKeys(Inserted(d.devices, patch.added), patch.updated);
    NamesAppend(NewEntries(added, r), RecheckedEntries(rechecked, r));
    NewEntryNames(added, r, n);
    RecheckedNames(rechecked, r, n);
    forall i | 0 <= i < |added| && added[i].device.name == n ensures n in Reported(remote) {
      JoinedHas(added, plan.added, added[i].device);
      OfKindHas(snapshot, remote, IsNew, added[i].device);
      ReportedHas(remote, added[i].device);
    }
    forall i | 0 <= i < |rechecked| && rechecked[i].device.name == n ensures n in d.devices {
      JoinedHas(rechecked, plan.recheck, rechecked[i].device);
      OfKindHas(snapshot, remote, IsSilent, rechecked[i].device);
    }
  }

  /** Unless a load task panics, a successful pass ends with exactly the reported names. */
  lemma KeysAreReported(d: Daemon, snapshot: Devices, remote: seq<UpsDevice>, plan: Plan,
                        added: seq<Completion>, rechecked: seq<Completion>, r: Resolver, patch: Patch)
    requires IsPass(d.devices, snapshot, remote, plan, added, rechecked, r, patch)
    requires forall i | 0 <= i < |added| :: !added[i].load.Panicked?
    ensures Patched(d, patch).devices.Keys == Reported(remote)
  {
    forall n ensures n in Patched(d, patch).devices <==> n in Reported(remote) {
      NamesAfterPass(d, snapshot, remote, plan, added, rechecked, r, patch, n);
      if n in Reported(remote) && n !in d.devices {
        var i :| 0 <= i < |remote| && remote[i].name == n;
        OfKindHas(snapshot, remote, IsNew, remote[i]);
        JoinedHas(added, plan.added, remote[i]);
        var j :| 0 <= j < |added| && added[j].device == remote[i];
        assert Delivers(added[j], n, false);
      }
    }
  }

  lemma {:induction false} FailuresBound(done: seq<Completion>)
    ensures Failures(done) <= |done|
    ensures Failures(done) < |done| ==> exists i :: 0 <= i < |done| && done[i].load.Loaded?
  {
    if done != [] {
      var most := done[..|done| - 1];
      FailuresBound(most);
      assert forall i | 0 <= i < |most| :: most[i] == done[i];
      assert done[|done| - 1].load.Loaded? || Failures(done) == Failures(most) + 1;
    }
  }

  /** A successful pass leaves at least one device, panics or not: not every reported device failed. */
  lemma SomeDeviceRemains(d: Daemon, snapshot: Devices, remote: seq<UpsDevice>, plan: Plan,
                          added: seq<Completion>, rechecked: seq<Completion>, r: Resolver, patch: Patch)
    requires IsPass(d.devices, snapshot, remote, plan, added, rechecked, r, patch)
    ensures Patched(d, patch).devices != map[]
  {
    FailuresBound(added);
    FailuresBound(rechecked);
    KindsAddUp(snapshot, remote);
    JoinedHas(added, plan.added, UpsDevice("", ""));
    JoinedHas(rechecked, plan.recheck, UpsDevice("", ""));
    var n: DeviceName;
    if i :| 0 <= i < |added| && added[i].load.Loaded? {
      n := added[i].device.name;
      assert Delivers(added[i], n, false);
      JoinedHas(added, plan.added, added[i].device);
      OfKindHas(snapshot, remote, IsNew, added[i].device);
      ReportedHas(remote, added[i].device);
    } else if i :| 0 <= i < |rechecked| && rechecked[i].load.Loaded? {
      n := rechecked[i].device.name;
      JoinedHas(rechecked, plan.recheck, rechecked[i].device);
      OfKindHas(snapshot, remote, IsSilent, rechecked[i].device);
      ReportedHas(remote, rechecked[i].device);
    } else if OfKind(snapshot, remote, IsRedescribed) != [] {
      var known := OfKind(snapshot, remote, IsRedescribed)[0];
      n := known.name;
      OfKindHas(snapshot, remote, IsRedescribed, known);
      ReportedHas(remote, known);
    } else {
      var known := OfKind(snapshot, remote, IsUnchanged)[0];
      n := known.name;
      OfKindHas(snapshot, remote, IsUnchanged, known);
      ReportedHas(remote, known);
    }
    NamesAfterPass(d, snapshot, remote, plan, added, rechecked, r, patch, n);
    assert n in Patched(d, patch).devices;
  }

  // ---------- When a pass fails ----------

  predicate SomeLoaded(done: seq<Completion>) {
    exists i | 0 <= i < |done| :: done[i].load.Loaded?
  }

  lemma {:induction false} AllFailedIff(done: seq<Completion>)
    ensures Failures(done) <= |done| && (Failures(done) == |done| <==> !SomeLoaded(done))
  {
    if done != [] {
      var most, last := done[..|done| - 1], done[|done| - 1];
      AllFailedIff(most);
      assert forall i | 0 <= i < |most| :: most[i] == done[i];
    }
  }

  /** A pass fails if and only if every reported device had a load task and none of these tasks loaded
      its device. */
  lemma PassFailsIff(snapshot: Devices, remote: seq<UpsDevice>, plan: Plan, added: seq<Completion>,
                     rechecked: seq<Completion>, versions: Versions, r: Resolver)
    requires IsPlan(plan, snapshot, remote) && Joined(added, plan.added) && Joined(rechecked, plan.recheck)
    ensures PatchOf(plan, |remote|, added, rechecked, versions, r) == None
            <==> |added| + |rechecked| == |remote| && !SomeLoaded(added) && !SomeLoaded(rechecked)
  {
    AllFailedIff(added);
    AllFailedIff(rechecked);
    TasksAreReported(snapshot, remote, plan, added, rechecked);
  }

  lemma TasksAreReported(snapshot: Devices, remote: seq<UpsDevice>, plan: Plan, added: seq<Completion>,
                         rechecked: seq<Completion>)
    requires IsPlan(plan, snapshot, remote) && Joined(added, plan.added) && Joined(rechecked, plan.recheck)
    ensures |added| + |rechecked| <= |remote|
  {
    KindsAddUp(snapshot, remote);
    JoinedHas(added, plan.added, UpsDevice("", ""));
    JoinedHas(rechecked, plan.recheck, UpsDevice("", ""));
  }

  // ---------- Entries ----------

  /** The last finished task for the name that produced an entry. */
  function LastDelivery(done: seq<Completion>, n: DeviceName, recheck: bool): (last: Option<Completion>)
    ensures last.Some? ==> Delivers(last.value, n, recheck)
  {
    if done == [] then None
    else if Delivers(done[|done| - 1], n, recheck) then Some(done[|done| - 1])
    else LastDelivery(done[..|done| - 1], n, recheck)
  }

  predicate IsLastDelivery(done: seq<Completion>, n: DeviceName, recheck: bool, i: int) {
    && 0 <= i < |done| && Delivers(done[i], n, recheck)
    && forall j | i < j < |done| :: !Delivers(done[j], n, recheck)
  }

  lemma {:induction false} LastDeliveryIs(done: seq<Completion>, n: DeviceName, recheck: bool)
    ensures match LastDelivery(done, n, recheck)
            case None => forall i | 0 <= i < |done| :: !Delivers(done[i], n, recheck)
            case Some(last) => exists i :: IsLastDelivery(done, n, recheck, i) && done[i] == last
  {
    if done != [] {
      var most := done[..|done| - 1];
      LastDeliveryIs(most, n, recheck);
      if Delivers(done[|done| - 1], n, recheck) {
        assert IsLastDelivery(done, n, recheck, |done| - 1);
      } else if LastDelivery(most, n, recheck).Some? {
        var i :| IsLastDelivery(most, n, recheck, i) && most[i] == LastDelivery(most, n, recheck).value;
        assert IsLastDelivery(done, n, recheck, i);
      }
    }
  }

  /** The last description in the list, or the given one. */
  function LastDesc(updated: seq<UpsDevice>, n: DeviceName, desc: string): string {
    if updated == [] then desc
    else if updated[|updated| - 1].name == n then updated[|updated| - 1].desc
    else LastDesc(updated[..|updated| - 1], n, desc)
  }

  function Lookup(devices: Devices, n: DeviceName): Option<DeviceEntry> {
    if n in devices then Some(devices[n]) else None
  }

  lemma {:induction false} InsertedAppend(devices: Devices, a: seq<DeviceEntry>, b: seq<DeviceEntry>)
    ensures Inserted(devices, a + b) == Inserted(Inserted(devices, a), b)
  {
    if b == [] {
      assert a + b == a;
    } else {
      assert (a + b)[..|a + b| - 1] == a + b[..|b| - 1];
      InsertedAppend(devices, a, b[..|b| - 1]);
    }
  }

  lemma InsertedOne(devices: Devices, entries: seq<DeviceEntry>, e: DeviceEntry, n: DeviceName)
    ensures Lookup(Inserted(devices, entries + [e]), n)
            == if e.name == n then Some(e) else Lookup(Inserted(devices, entries), n)
  {
    assert (entries + [e])[..|entries|] == entries;
  }

  lemma EntriesStep(done: seq<Completion>, r: Resolver)
    requires done != []
    ensures var most, last := done[..|done| - 1], done[|done| - 1];
            && NewEntries(done, r)
               == (if last.load.Panicked? then NewEntries(most, r) else NewEntries(most, r) + [EntryOf(last, r)])
            && RecheckedEntries(done, r)
               == (if last.load.Loaded? then RecheckedEntries(most, r) + [EntryOf(last, r)]
                   else RecheckedEntries(most, r))
  {
  }

  lemma {:induction false} NewInserted(devices: Devices, done: seq<Completion>, r: Resolver, n: DeviceName)
    ensures Lookup(Inserted(devices, NewEntries(done, r)), n)
            == match LastDelivery(done, n, false)
               case Some(c) => Some(EntryOf(c, r))
               case None => Lookup(devices, n)
  {
    if done != [] {
      var most, last := done[..|done| - 1], done[|done| - 1];
      NewInserted(devices, most, r, n);
      EntriesStep(done, r);
      InsertedOne(devices, NewEntries(most, r), EntryOf(last, r), n);
    }
  }

  lemma {:induction false} RecheckedInserted(devices: Devices, done: seq<Completion>, r: Resolver, n: DeviceName)
    ensures Lookup(Inserted(devices, RecheckedEntries(done, r)), n)
            == match LastDelivery(done, n, true)
               case Some(c) => Some(EntryOf(c, r))
               case None => Lookup(devices, n)
  {
    if done != [] {
      var most, last := done[..|done| - 1], done[|done| - 1];
      RecheckedInserted(devices, most, r, n);
      EntriesStep(done, r);
      InsertedOne(devices, RecheckedEntries(most, r), EntryOf(last, r), n);
    }
  }

  lemma {:induction false} RedescribedEntry(devices: Devices, updated: seq<UpsDevice>, n: DeviceName)
    ensures Lookup(Redescribed(devices, updated), n)
            == if n in devices then Some(devices[n].(desc := LastDesc(updated, n, devices[n].desc))) else None
  {
    if updated != [] {
      RedescribedEntry(devices, updated[..|updated| - 1], n);
    }
  }

  lemma {:induction false} NoDesc(updated: seq<UpsDevice>, n: DeviceName, desc: string)
    requires forall i | 0 <= i < |updated| :: updated[i].name != n
    ensures LastDesc(updated, n, desc) == desc
  {
    if updated != [] {
      NoDesc(updated[..|updated| - 1], n, desc);
    }
  }

  lemma NotAdded(snapshot: Devices, remote: seq<UpsDevice>, plan: Plan, added: seq<Completion>, n: DeviceName)
    requires IsPlan(plan, snapshot, remote) && Joined(added, plan.added)
    requires n in snapshot || n !in Reported(remote)
    ensures LastDelivery(added, n, false) == None
  {
    LastDeliveryIs(added, n, false);
    forall i | 0 <= i < |added| ensures !Delivers(added[i], n, false) {
      JoinedHas(added, plan.added, added[i].device);
      OfKindHas(snapshot, remote, IsNew, added[i].device);
      ReportedHas(remote, added[i].device);
    }
  }

  lemma NotRechecked(snapshot: Devices, remote: seq<UpsDevice>, plan: Plan, rechecked: seq<Completion>, n: DeviceName)
    requires IsPlan(plan, snapshot, remote) && Joined(rechecked, plan.recheck)
    requires n in snapshot ==> NOCOMM !in snapshot[n].status
    ensures LastDelivery(rechecked, n, true) == None
  {
    LastDeliveryIs(rechecked, n, true);
    forall i | 0 <= i < |rechecked| ensures !Delivers(rechecked[i], n, true) {
      JoinedHas(rechecked, plan.recheck, rechecked[i].device);
      OfKindHas(snapshot, remote, IsSilent, rechecked[i].device);
    }
  }

  /** A device with a finished load task is not redescribed, and is either new or rechecked. */
  lemma OneKind(snapshot: Devices, remote: seq<UpsDevice>, plan: Plan, added: seq<Completion>,
                rechecked: seq<Completion>, n: DeviceName)
    requires IsPlan(plan, snapshot, remote) && Joined(added, plan.added) && Joined(rechecked, plan.recheck)
    ensures LastDelivery(added, n, false).Some? ==> n !in snapshot && LastDelivery(rechecked, n, true).None?
    ensures LastDelivery(added, n, false).Some? || LastDelivery(rechecked, n, true).Some? ==>
              forall k | 0 <= k < |plan.updated| :: plan.updated[k].name != n
  {
    if n in snapshot {
      NotAdded(snapshot, remote, plan, added, n);
    }
    if n in snapshot ==> NOCOMM !in snapshot[n].status {
      NotRechecked(snapshot, remote, plan, rechecked, n);
    }
    forall k | 0 <= k < |plan.updated| && plan.updated[k].name == n
      ensures n in snapshot && NOCOMM !in snapshot[n].status
    {
      OfKindHas(snapshot, remote, IsRedescribed, plan.updated[k]);
    }
  }

  /** The entries afterwards: what the last load task that produced something for the device
      produced, or else the entry that was there, with its last new description. */
  lemma EntryAfterPass(d: Daemon, snapshot: Devices, remote: seq<UpsDevice>, plan: Plan,
                       added: seq<Completion>, rechecked: seq<Completion>, r: Resolver, patch: Patch,
                       n: DeviceName)
    requires IsPass(d.devices, snapshot, remote, plan, added, rechecked, r, patch) && n in Reported(remote)
    ensures Lookup(Patched(d, patch).devices, n)
            == match LastDelivery(added, n, false)
               case Some(c) => Some(EntryOf(c, r))
               case None =>
                 match LastDelivery(rechecked, n, true)
                 case Some(c) => Some(EntryOf(c, r))
                 case None =>
                   if n in d.devices
                   then Some(d.devices[n].(desc := LastDesc(plan.updated, n, d.devices[n].desc)))
                   else None
  {
    var withNew := Inserted(d.devices, NewEntries(added, r));
    InsertedAppend(d.devices, NewEntries(added, r), RecheckedEntries(rechecked, r));
    NewInserted(d.devices, added, r, n);
    RecheckedInserted(withNew, rechecked, r, n);
    RedescribedEntry(Inserted(d.devices, patch.added), patch.updated, n);
    OneKind(snapshot, remote, plan, added, rechecked, n);
    if LastDelivery(added, n, false).Some? || LastDelivery(rechecked, n, true).Some? {
      NoDesc(plan.updated, n, Inserted(d.devices, patch.added)[n].desc);
    }
    assert n !in plan.deleted;
  }

  /** The entry holds what the daemon answered when the device was loaded. */
  ghost predicate Holds(e: DeviceEntry, device: UpsDevice, d: Details, r: Resolver) {
    && e.name == device.name && e.desc == device.desc
    && e.variables == d.variables && e.commands == d.commands && e.rwVariables == d.rwVariables
    && e.status == (if UPS_STATUS in d.variables then StatusOf(d.variables[UPS_STATUS]) else {})
    && multiset(Addrs(e.attached)) == multiset(d.ips)
    && forall c | c in e.attached :: IsNamed(c, r)
  }

  lemma LoadedHolds(device: UpsDevice, d: Details, r: Resolver)
    ensures Holds(LoadedEntry(device, d, r), device, d, r)
  {
    var attached := Attach([], d.ips, r);
    AttachAdds([], d.ips, r);
    forall c | c in attached ensures IsNamed(c, r) {
      AttachedIsNamed([], d.ips, r, c);
    }
  }

  /** A device whose last load task that produced an entry loaded it holds afterwards what was
      answered. */
  lemma LoadedDeviceHolds(d: Daemon, snapshot: Devices, remote: seq<UpsDevice>, plan: Plan,
                          added: seq<Completion>, rechecked: seq<Completion>, r: Resolver, patch: Patch,
                          n: DeviceName)
    requires IsPass(d.devices, snapshot, remote, plan, added, rechecked, r, patch) && n in Reported(remote)
    ensures var after := Patched(d, patch).devices;
            forall c | LastDelivery(added, n, false) == Some(c) || LastDelivery(rechecked, n, true) == Some(c) ::
              c.load.Loaded? ==> n in after && Holds(after[n], c.device, c.load.details, r)
  {
    EntryAfterPass(d, snapshot, remote, plan, added, rechecked, r, patch, n);
    OneKind(snapshot, remote, plan, added, rechecked, n);
    forall c: Completion | c.load.Loaded? ensures Holds(EntryOf(c, r), c.device, c.load.details, r) {
      LoadedHolds(c.device, c.load.details, r);
    }
  }

  /** A loaded entry is no placeholder. */
  lemma LoadedIsNoPlaceholder(c: Completion, r: Resolver)
    requires !c.load.Panicked?
    ensures EntryOf(c, r) == PlaceholderEntry(c.device.name) <==> c.load.LoadFailed?
  {
    if c.load.Loaded? {
      var e := EntryOf(c, r);
      assert UPS_STATUS !in e.variables ==> e.status == {};
      assert NOCOMM in PlaceholderEntry(c.device.name).status;
    }
  }

  /** A device that was not known is known as silent afterwards exactly if the last task that
      produced an entry for it had failed to load its details. */
  lemma NewDeviceIsPlaceholder(d: Daemon, snapshot: Devices, remote: seq<UpsDevice>, plan: Plan,
                               added: seq<Completion>, rechecked: seq<Completion>, r: Resolver, patch: Patch,
                               n: DeviceName)
    requires IsPass(d.devices, snapshot, remote, plan, added, rechecked, r, patch) && n !in d.devices
    ensures Lookup(Patched(d, patch).devices, n) == Some(PlaceholderEntry(n))
            <==> LastDelivery(added, n, false).Some? && LastDelivery(added, n, false).value.load.LoadFailed?
  {
    if n in Reported(remote) {
      EntryAfterPass(d, snapshot, remote, plan, added, rechecked, r, patch, n);
      NotRechecked(snapshot, remote, plan, rechecked, n);
      if LastDelivery(added, n, false).Some? {
        LoadedIsNoPlaceholder(LastDelivery(added, n, false).value, r);
      }
    } else {
      NamesAfterPass(d, snapshot, remote, plan, added, rechecked, r, patch, n);
      NotAdded(snapshot, remote, plan, added, n);
    }
  }
}
