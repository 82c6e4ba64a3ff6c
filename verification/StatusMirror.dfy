/** Two more invariants of the sync services: the cached status mirrors the variable that it comes
    from, and the recorded status changes form unbroken chains. */
module StatusMirror {
  import opened Wrappers
  import opened Values
  import opened UpsStatuses
  import opened AttachedClients
  import opened Events
  import opened Daemons
  import opened DeviceSyncPass
  import opened SyncServices

  // ---------- The mirror ----------

  /** If the variables say what the status is, the cached status says the same. */
  predicate Mirrors(e: DeviceEntry) {
    UPS_STATUS in e.variables ==> e.status == StatusOf(e.variables[UPS_STATUS])
  }

  predicate AllMirror(devices: Devices) {
    forall n | n in devices :: Mirrors(devices[n])
  }

  /** The entries that a device sync is about to insert mirror too. */
  predicate PatchMirrors(p: DevicePhase) {
    p.Patching? ==> forall i | 0 <= i < |p.patch.added| :: Mirrors(p.patch.added[i])
  }

  predicate MirrorHolds(w: World) {
    AllMirror(w.daemon.devices) && PatchMirrors(w.device)
  }

  /** The daemon answers the question asked: a partial sync asks for `ups.status`. */
  predicate AnswersAsked(a: Action) {
    a.ApplyVars? ==> forall i | 0 <= i < |a.responses| && a.responses[i].Some? ::
                       a.responses[i].value.name == UPS_STATUS
  }

  /** A reply to a partial sync keeps the mirror if and only if it names `ups.status`, or no such
      variable is known, or the known one means the same status. */
  lemma ReplyKeepsMirror(devices: Devices, v: UpsVar)
    requires v.device in devices
    ensures var e := devices[v.device];
            Mirrors(VarApplied(devices, v)[v.device])
            <==> v.name == UPS_STATUS || UPS_STATUS !in e.variables
                 || StatusOf(e.variables[UPS_STATUS]) == StatusOf(v.value)
  {
    var e := devices[v.device];
    var after := e.variables[v.name := v.value];
    assert UPS_STATUS in after <==> v.name == UPS_STATUS || UPS_STATUS in e.variables;
  }

  /** A reply that names another variable does break it. */
  lemma StrayReplyBreaksMirror()
    ensures exists e: DeviceEntry, v: UpsVar ::
              Mirrors(e) && v.device == e.name && !Mirrors(VarApplied(map[e.name := e], v)[e.name])
  {
    var known := Text("OL");
    assert ONLINE in StatusOf(known) by {
      FlagsAreNamedWords("OL", ONLINE);
      assert WordAt("OL", 0, 2) && "OL"[0..2] == "OL";
    }
    var e := DeviceEntry([], [], "", "ups", map[], StatusOf(known), map[UPS_STATUS := known]);
    var v := UpsVar("ups", "ups.load", Int(12));
    ReplyKeepsMirror(map["ups" := e], v);
    assert Mirrors(e) && v.device == e.name && !Mirrors(VarApplied(map[e.name := e], v)[e.name]);
  }

  lemma {:induction false} VarsMirror(devices: Devices, responses: seq<Option<UpsVar>>)
    requires AllMirror(devices)
    requires forall i | 0 <= i < |responses| && responses[i].Some? :: responses[i].value.name == UPS_STATUS
    ensures AllMirror(VarsApplied(devices, responses))
  {
    if responses != [] {
      VarsMirror(devices, responses[..|responses| - 1]);
    }
  }

  lemma {:induction false} PollsMirror(devices: Devices, polls: seq<Poll>, r: Resolver)
    requires AllMirror(devices)
    ensures AllMirror(PollsApplied(devices, polls, r))
  {
    if polls != [] {
      PollsMirror(devices, polls[..|polls| - 1], r);
    }
  }

  lemma {:induction false} NewEntriesMirror(done: seq<Completion>, r: Resolver)
    ensures forall i | 0 <= i < |NewEntries(done, r)| :: Mirrors(NewEntries(done, r)[i])
    ensures forall i | 0 <= i < |RecheckedEntries(done, r)| :: Mirrors(RecheckedEntries(done, r)[i])
  {
    if done != [] {
      NewEntriesMirror(done[..|done| - 1], r);
    }
  }

  lemma {:induction false} InsertedMirror(devices: Devices, entries: seq<DeviceEntry>)
    requires AllMirror(devices) && forall i | 0 <= i < |entries| :: Mirrors(entries[i])
    ensures AllMirror(Inserted(devices, entries))
  {
    if entries != [] {
      InsertedMirror(devices, entries[..|entries| - 1]);
    }
  }

  lemma {:induction false} RedescribedMirror(devices: Devices, updated: seq<UpsDevice>)
    requires AllMirror(devices)
    ensures AllMirror(Redescribed(devices, updated))
  {
    if updated != [] {
      RedescribedMirror(devices, updated[..|updated| - 1]);
    }
  }

  lemma MirrorStep(w: World, a: Action)
    requires MirrorHolds(w) && Enabled(w, a) && AnswersAsked(a)
    ensures MirrorHolds(Next(w, a))
  {
    match a
    case Collect(added, rechecked, r) =>
      NewEntriesMirror(added, r);
      NewEntriesMirror(rechecked, r);
    case ApplyPatch =>
      InsertedMirror(w.daemon.devices, w.device.patch.added);
      RedescribedMirror(Inserted(w.daemon.devices, w.device.patch.added), w.device.patch.updated);
    case ApplyVars(responses) => VarsMirror(w.daemon.devices, responses);
    case ApplyPolls(polls, r) => PollsMirror(w.daemon.devices, polls, r);
    case _ =>
  }

  // ---------- Chains of status changes ----------

  function Statuses(devices: Devices): map<DeviceName, UpsStatus> {
    map n | n in devices :: devices[n].status
  }

  /** The statuses that the log tells. */
  function Track(log: seq<Mark>): map<DeviceName, UpsStatus> {
    if log == [] then map[]
    else
      var before := Track(log[..|log| - 1]);
      match log[|log| - 1]
      case Insertion(name, status) => before[name := status]
      case Removal(name) => before - {name}
      case Change(name, _, after) => before[name := after]
  }

  /** Every recorded change starts from the status that the log tells at that point. */
  predicate Unbroken(log: seq<Mark>) {
    log == [] ||
    (var most := log[..|log| - 1];
     var last := log[|log| - 1];
     && Unbroken(most)
     && (last.Change? ==> last.name in Track(most) && Track(most)[last.name] == last.before))
  }

  /** The log is unbroken and tells the current status of each device. */
  predicate Tells(log: seq<Mark>, devices: Devices) {
    Unbroken(log) && Track(log) == Statuses(devices)
  }

  /** What one turn of a status sync does to the statuses, and what it records. */
  predicate ChangesStatus(devices: Devices, changes: seq<StatusChange>, after: Devices) {
    || (changes == [] && Statuses(after) == Statuses(devices))
    || (&& |changes| == 1 && changes[0].name in devices && devices[changes[0].name].status == changes[0].before
        && Statuses(after) == Statuses(devices)[changes[0].name := changes[0].after])
  }

  lemma VarChangesStatus(devices: Devices, v: UpsVar)
    ensures ChangesStatus(devices, VarChange(devices, v), VarApplied(devices, v))
  {
  }

  lemma PollChangesStatus(devices: Devices, p: Poll, r: Resolver)
    ensures ChangesStatus(devices, PollChange(devices, p), PollApplied(devices, p, r))
  {
  }

  lemma TellsInsertion(log: seq<Mark>, devices: Devices, e: DeviceEntry)
    requires Tells(log, devices)
    ensures Tells(log + [Insertion(e.name, e.status)], devices[e.name := e])
  {
    assert (log + [Insertion(e.name, e.status)])[..|log|] == log;
  }

  lemma TellsRemoval(log: seq<Mark>, devices: Devices, n: DeviceName)
    requires Tells(log, devices)
    ensures Tells(log + [Removal(n)], devices - {n})
  {
    assert (log + [Removal(n)])[..|log|] == log;
  }

  lemma TellsChange(log: seq<Mark>, devices: Devices, changes: seq<StatusChange>, after: Devices)
    requires Tells(log, devices) && ChangesStatus(devices, changes, after)
    ensures Tells(log + Marks(changes), after)
  {
    if changes != [] {
      var mark := Change(changes[0].name, changes[0].before, changes[0].after);
      assert changes[..0] == [] && Marks(changes) == [mark];
      assert (log + [mark])[..|log|] == log;
    } else {
      assert log + Marks(changes) == log;
    }
  }

  lemma MarksAppend(log: seq<Mark>, a: seq<StatusChange>, b: seq<StatusChange>)
    requires |b| <= 1
    ensures log + Marks(a + b) == log + Marks(a) + Marks(b)
  {
    if b == [] {
      assert a + b == a;
    } else {
      assert (a + b)[..|a|] == a && b[..0] == [];
    }
  }

  lemma {:induction false} VarsTell(log: seq<Mark>, devices: Devices, responses: seq<Option<UpsVar>>)
    requires Tells(log, devices)
    ensures Tells(log + Marks(VarsChanges(devices, responses)), VarsApplied(devices, responses))
  {
    if responses == [] {
      assert log + [] == log;
    } else {
      var most, last := responses[..|responses| - 1], responses[|responses| - 1];
      VarsTell(log, devices, most);
      if last.Some? {
        var middle, changes := VarsApplied(devices, most), VarsChanges(devices, most);
        VarChangesStatus(middle, last.value);
        MarksAppend(log, changes, VarChange(middle, last.value));
        TellsChange(log + Marks(changes), middle, VarChange(middle, last.value), VarApplied(middle, last.value));
      } else {
        assert VarsChanges(devices, responses) == VarsChanges(devices, most);
      }
    }
  }

  lemma {:induction false} PollsTell(log: seq<Mark>, devices: Devices, polls: seq<Poll>, r: Resolver)
    requires Tells(log, devices)
    ensures Tells(log + Marks(PollsBatch(devices, polls, r).changes), PollsApplied(devices, polls, r))
  {
    if polls == [] {
      assert log + [] == log;
    } else {
      var most, last := polls[..|polls| - 1], polls[|polls| - 1];
      PollsTell(log, devices, most, r);
      var middle, changes := PollsApplied(devices, most, r), PollsBatch(devices, most, r).changes;
      PollChangesStatus(middle, last, r);
      MarksAppend(log, changes, PollChange(middle, last));
      TellsChange(log + Marks(changes), middle, PollChange(middle, last), PollApplied(middle, last, r));
      PollBatchChanges(PollsBatch(devices, most, r), middle, last);
    }
  }

  lemma PollBatchChanges(b: Batch, devices: Devices, p: Poll)
    ensures PollBatch(b, devices, p).changes == b.changes + PollChange(devices, p)
  {
  }

  lemma {:induction false} InsertionsTell(log: seq<Mark>, devices: Devices, entries: seq<DeviceEntry>)
    requires Tells(log, devices)
    ensures Tells(log + Insertions(entries), Inserted(devices, entries))
  {
    if entries == [] {
      assert log + [] == log;
    } else {
      var most, last := entries[..|entries| - 1], entries[|entries| - 1];
      InsertionsTell(log, devices, most);
      TellsInsertion(log + Insertions(most), Inserted(devices, most), last);
      assert log + Insertions(most) + [Insertion(last.name, last.status)] == log + Insertions(entries);
    }
  }

  lemma {:induction false} RemovalsTell(log: seq<Mark>, devices: Devices, names: seq<DeviceName>)
    requires Tells(log, devices)
    ensures Tells(log + Removals(names), Removed(devices, names))
  {
    if names == [] {
      assert log + [] == log;
      assert Removed(devices, names) == devices;
    } else {
      var most, last := names[..|names| - 1], names[|names| - 1];
      RemovalsTell(log, devices, most);
      TellsRemoval(log + Removals(most), Removed(devices, most), last);
      assert log + Removals(most) + [Removal(last)] == log + Removals(names);
      assert Removed(devices, names) == Removed(devices, most) - {last};
    }
  }

  lemma {:induction false} RedescribedStatuses(devices: Devices, updated: seq<UpsDevice>)
    ensures Statuses(Redescribed(devices, updated)) == Statuses(devices)
  {
    if updated != [] {
      RedescribedStatuses(devices, updated[..|updated| - 1]);
    }
  }

  lemma LogStep(w: World, a: Action)
    requires Tells(w.log, w.daemon.devices) && Enabled(w, a)
    ensures Tells(Next(w, a).log, Next(w, a).daemon.devices)
  {
    match a
    case ApplyPatch =>
      var patch := w.device.patch;
      var inserted := Inserted(w.daemon.devices, patch.added);
      InsertionsTell(w.log, w.daemon.devices, patch.added);
      RedescribedStatuses(inserted, patch.updated);
      RemovalsTell(w.log + Insertions(patch.added), Redescribed(inserted, patch.updated), patch.deleted);
    case ApplyFailure(names) =>
      RemovalsTell(w.log, w.daemon.devices, names);
      assert Removed(w.daemon.devices, names) == map[];
    case ApplyVars(responses) => VarsTell(w.log, w.daemon.devices, responses);
    case ApplyPolls(polls, r) => PollsTell(w.log, w.daemon.devices, polls, r);
    case _ =>
  }
}
