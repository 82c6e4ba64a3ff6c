/** What the events on the channel tell: the batches that were sent, the status changes that were
    applied, the connection status of the daemon, and the clients that came and went. */
module SyncEvents {
  import opened Wrappers
  import opened UpsStatuses
  import opened AttachedClients
  import opened Events
  import opened Daemons
  import opened SyncServices
  import opened StatusSyncPass
  import opened SyncRuns

  // ---------- Batches from events ----------

  function Tell(b: Batch, event: SystemEvent): Batch {
    match event
    case DeviceAddition(devices) => b.(added := b.added + devices)
    case DeviceRemoval(devices) => b.(removed := b.removed + devices)
    case DeviceUpdate(devices) => b.(updated := b.updated + devices)
    case DeviceStatusChange(changes) => b.(changes := b.changes + changes)
    case ClientDisconnection(clients) => b.(disconnections := b.disconnections + clients)
    case ClientConnection(clients) => b.(connections := b.connections + clients)
    case DaemonStatusUpdate(status) => b.(upsdStatus := Some(status))
  }

  /** What a listener has collected from the events. */
  function Told(events: seq<SystemEvent>): Batch {
    if events == [] then EMPTY_BATCH else Tell(Told(events[..|events| - 1]), events[|events| - 1])
  }

  function Joined(a: Batch, b: Batch): Batch {
    Batch(if b.upsdStatus.Some? then b.upsdStatus else a.upsdStatus, a.added + b.added, a.removed + b.removed,
          a.changes + b.changes, a.updated + b.updated, a.disconnections + b.disconnections,
          a.connections + b.connections)
  }

  lemma TellJoined(a: Batch, b: Batch, event: SystemEvent)
    ensures Joined(a, Tell(b, event)) == Tell(Joined(a, b), event)
  {
    match event
    case DeviceAddition(devices) => Regroup(a.added, b.added, devices);
    case DeviceRemoval(devices) => Regroup(a.removed, b.removed, devices);
    case DeviceUpdate(devices) => Regroup(a.updated, b.updated, devices);
    case DeviceStatusChange(changes) => Regroup(a.changes, b.changes, changes);
    case ClientDisconnection(clients) => Regroup(a.disconnections, b.disconnections, clients);
    case ClientConnection(clients) => Regroup(a.connections, b.connections, clients);
    case DaemonStatusUpdate(_) =>
  }

  /** Hearing two sequences of events is joining what each tells. */
  lemma {:induction false} ToldAppend(a: seq<SystemEvent>, b: seq<SystemEvent>)
    ensures Told(a + b) == Joined(Told(a), Told(b))
  {
    if b == [] {
      assert a + b == a;
    } else {
      var most, last := b[..|b| - 1], b[|b| - 1];
      ToldAppend(a, most);
      assert (a + b)[..|a + b| - 1] == a + most;
      TellJoined(Told(a), Told(most), last);
    }
  }

  /** What the wanted offers tell. */
  function Heard(offers: seq<Offer>): Batch {
    Told(Wanted(offers))
  }

  lemma TellOffer(offers: seq<Offer>, offer: Offer)
    ensures Heard(offers + [offer]) == if offer.wanted then Tell(Heard(offers), offer.event) else Heard(offers)
  {
    assert (offers + [offer])[..|offers|] == offers;
    var w := Wanted(offers);
    assert (w + [offer.event])[..|w|] == w && w + [] == w;
  }

  lemma TellDevices(offers: seq<Offer>, b: Batch, added: seq<DeviceName>, removed: seq<DeviceName>,
                    updated: seq<DeviceName>)
    requires Heard(offers) == b && b.added == b.removed == b.updated == []
    ensures Heard(offers + [Offer(added != [], DeviceAddition(added))] + [Offer(removed != [], DeviceRemoval(removed))]
                  + [Offer(updated != [], DeviceUpdate(updated))])
            == b.(added := added, removed := removed, updated := updated)
  {
    var first, second := Offer(added != [], DeviceAddition(added)), Offer(removed != [], DeviceRemoval(removed));
    TellOffer(offers, first);
    assert Heard(offers + [first]) == b.(added := added);
    TellOffer(offers + [first], second);
    assert Heard(offers + [first] + [second]) == b.(added := added, removed := removed);
    TellOffer(offers + [first] + [second], Offer(updated != [], DeviceUpdate(updated)));
  }

  lemma TellRest(offers: seq<Offer>, b: Batch, changes: seq<StatusChange>, gone: seq<DeviceClients>,
                 arrived: seq<DeviceClients>)
    requires Heard(offers) == b && b.changes == [] && b.disconnections == b.connections == []
    ensures Heard(offers + [Offer(changes != [], DeviceStatusChange(changes))]
                  + [Offer(gone != [], ClientDisconnection(gone))] + [Offer(arrived != [], ClientConnection(arrived))])
            == b.(changes := changes, disconnections := gone, connections := arrived)
  {
    var first := Offer(changes != [], DeviceStatusChange(changes));
    var second := Offer(gone != [], ClientDisconnection(gone));
    TellOffer(offers, first);
    assert Heard(offers + [first]) == b.(changes := changes);
    TellOffer(offers + [first], second);
    assert Heard(offers + [first] + [second]) == b.(changes := changes, disconnections := gone);
    TellOffer(offers + [first] + [second], Offer(arrived != [], ClientConnection(arrived)));
  }

  lemma OneByOne<T>(a: T, b: T, c: T, d: T, e: T, f: T, g: T)
    ensures [a, b, c, d, e, f, g] == [] + [a] + [b] + [c] + [d] + [e] + [f] + [g]
  {
  }

  /** The events of a batch tell exactly the batch. */
  lemma BatchIsTold(b: Batch)
    ensures Told(EventsOf(b)) == b
  {
    var added := Offer(b.added != [], DeviceAddition(b.added));
    var removed := Offer(b.removed != [], DeviceRemoval(b.removed));
    var updated := Offer(b.updated != [], DeviceUpdate(b.updated));
    var changes := Offer(b.changes != [], DeviceStatusChange(b.changes));
    var gone := Offer(b.disconnections != [], ClientDisconnection(b.disconnections));
    var arrived := Offer(b.connections != [], ClientConnection(b.connections));
    var status := Offer(b.upsdStatus.Some?, DaemonStatusUpdate(b.upsdStatus.GetOr(Dead)));
    OneByOne(added, removed, updated, changes, gone, arrived, status);
    var three := [] + [added] + [removed] + [updated];
    TellDevices([], EMPTY_BATCH, b.added, b.removed, b.updated);
    TellRest(three, EMPTY_BATCH.(added := b.added, removed := b.removed, updated := b.updated),
             b.changes, b.disconnections, b.connections);
    TellOffer(three + [changes] + [gone] + [arrived], status);
  }

  /** Sending a batch adds what it holds. */
  lemma SendTells(channel: seq<SystemEvent>, b: Batch)
    ensures Told(channel + EventsOf(b)) == Joined(Told(channel), b)
  {
    ToldAppend(channel, EventsOf(b));
    BatchIsTold(b);
  }

  // ---------- Over runs ----------

  /** The status changes that were applied, in order. */
  function Changes(log: seq<Mark>): seq<StatusChange> {
    if log == [] then []
    else
      var last := log[|log| - 1];
      Changes(log[..|log| - 1]) +
      if last.Change? then [StatusChange(last.name, last.before, last.after)] else []
  }

  lemma ChangesOfOne(log: seq<Mark>, mark: Mark)
    requires mark.Change?
    ensures Changes(log + [mark]) == Changes(log) + [StatusChange(mark.name, mark.before, mark.after)]
  {
    assert (log + [mark])[..|log|] == log;
  }

  lemma {:induction false} ChangesOfMarks(log: seq<Mark>, changes: seq<StatusChange>)
    ensures Changes(log + Marks(changes)) == Changes(log) + changes
  {
    if changes == [] {
      assert log + Marks(changes) == log;
    } else {
      var most, last := changes[..|changes| - 1], changes[|changes| - 1];
      var mark := Change(last.name, last.before, last.after);
      ChangesOfMarks(log, most);
      Regroup(log, Marks(most), [mark]);
      ChangesOfOne(log + Marks(most), mark);
      Regroup(Changes(log), most, [last]);
      assert changes == most + [last];
    }
  }

  lemma {:induction false} OthersAreNoChanges(log: seq<Mark>, others: seq<Mark>)
    requires forall i | 0 <= i < |others| :: !others[i].Change?
    ensures Changes(log + others) == Changes(log)
  {
    if others == [] {
      assert log + others == log;
    } else {
      OthersAreNoChanges(log, others[..|others| - 1]);
      assert (log + others)[..|log + others| - 1] == log + others[..|others| - 1];
    }
  }

  lemma {:induction false} InsertionsAreNoChanges(entries: seq<DeviceEntry>)
    ensures forall i | 0 <= i < |Insertions(entries)| :: !Insertions(entries)[i].Change?
  {
    if entries != [] {
      InsertionsAreNoChanges(entries[..|entries| - 1]);
    }
  }

  lemma {:induction false} RemovalsAreNoChanges(names: seq<DeviceName>)
    ensures forall i | 0 <= i < |Removals(names)| :: !Removals(names)[i].Change?
  {
    if names != [] {
      RemovalsAreNoChanges(names[..|names| - 1]);
    }
  }

  lemma {:induction false} PollsTellNoStatus(devices: Devices, polls: seq<Poll>, r: Resolver)
    ensures PollsBatch(devices, polls, r).upsdStatus == None
  {
    if polls != [] {
      PollsTellNoStatus(devices, polls[..|polls| - 1], r);
    }
  }

  /** The events that are sent or about to be. */
  function Outgoing(w: World): seq<SystemEvent> {
    w.channel + if w.status.Reporting? then w.status.events else []
  }

  /** The events tell the status changes that were applied, in order, and the connection status. */
  predicate ChannelTells(channel: Batch, pending: Batch, w: World) {
    && channel.changes + pending.changes == Changes(w.log)
    && channel.upsdStatus.GetOr(NotReady) == w.daemon.status && pending.upsdStatus == None
  }

  predicate EventsTell(w: World) {
    ChannelTells(Told(w.channel), Told(if w.status.Reporting? then w.status.events else []), w)
  }

  lemma SyncTells(w: World, changes: seq<StatusChange>, told: Batch, log: seq<Mark>)
    requires Told(w.channel).changes == Changes(w.log) && told.changes == changes && log == w.log + Marks(changes)
    ensures Told(w.channel).changes + told.changes == Changes(log)
  {
    ChangesOfMarks(w.log, changes);
  }

  lemma ChangesAreTold(changes: seq<StatusChange>)
    ensures Told(ChangesEvent(changes)) == EMPTY_BATCH.(changes := changes)
  {
    if changes != [] {
      assert ChangesEvent(changes)[..0] == [];
    }
  }

  lemma PatchTells(w: World)
    requires EventsTell(w) && w.device.Patching?
    ensures EventsTell(Next(w, ApplyPatch))
  {
    var n, patch := Next(w, ApplyPatch), w.device.patch;
    var batch := PatchBatch(w.daemon, patch);
    SendTells(w.channel, batch);
    PatchIsNoChange(w.log, patch);
    var told := Told(n.channel);
    assert batch.changes == [] && told.changes == Told(w.channel).changes + [];
    assert told.upsdStatus.GetOr(NotReady) == n.daemon.status;
  }

  lemma PatchIsNoChange(log: seq<Mark>, patch: Patch)
    ensures Changes(log + Insertions(patch.added) + Removals(patch.deleted)) == Changes(log)
  {
    InsertionsAreNoChanges(patch.added);
    RemovalsAreNoChanges(patch.deleted);
    OthersAreNoChanges(log, Insertions(patch.added));
    OthersAreNoChanges(log + Insertions(patch.added), Removals(patch.deleted));
  }

  lemma FailureTells(w: World, names: seq<DeviceName>)
    requires EventsTell(w) && Enabled(w, ApplyFailure(names))
    ensures EventsTell(Next(w, ApplyFailure(names)))
  {
    var batch := FailureBatch(w.daemon, names);
    SendTells(w.channel, batch);
    RemovalsAreNoChanges(names);
    OthersAreNoChanges(w.log, Removals(names));
  }

  lemma EventsTellStep(w: World, a: Action)
    requires EventsTell(w) && Enabled(w, a)
    ensures EventsTell(Next(w, a))
  {
    match a
    case ApplyPatch => PatchTells(w);
    case ApplyFailure(names) => FailureTells(w, names);
    case ApplyVars(responses) =>
      var changes := VarsChanges(w.daemon.devices, responses);
      ChangesAreTold(changes);
      SyncTells(w, changes, Told(ChangesEvent(changes)), Next(w, a).log);
    case ApplyPolls(polls, r) =>
      var batch := PollsBatch(w.daemon.devices, polls, r);
      BatchIsTold(batch);
      PollsTellNoStatus(w.daemon.devices, polls, r);
      SyncTells(w, batch.changes, batch, Next(w, a).log);
    case Report => ToldAppend(w.channel, w.status.events);
    case _ =>
  }

  lemma {:induction false} RunTells(w: World, run: seq<Action>)
    requires EventsTell(w) && CanRun(w, run)
    ensures EventsTell(After(w, run))
    decreases |run|
  {
    if run != [] {
      EventsTellStep(w, run[0]);
      RunTells(Next(w, run[0]), run[1..]);
    }
  }

  /** In every run, the events sent or about to be sent tell exactly the status changes that were
      applied to the devices, in order, and the last status update tells the status of the daemon. */
  lemma ReachableIsTold(run: seq<Action>)
    requires CanRun(INITIAL, run)
    ensures var w := After(INITIAL, run);
            var told := Told(Outgoing(w));
            told.changes == Changes(w.log) && told.upsdStatus.GetOr(NotReady) == w.daemon.status
  {
    RunTells(INITIAL, run);
    var w := After(INITIAL, run);
    ToldAppend(w.channel, if w.status.Reporting? then w.status.events else []);
  }

  // ---------- Which changes are applied and told ----------

  function StatusIn(devices: Devices, n: DeviceName): Option<UpsStatus> {
    if n in devices then Some(devices[n].status) else None
  }

  /** A turn of a full sync tells the change from the status before it to the one after it; of an
      answered device only if they differ, of a silent one always. */
  lemma TurnTellsStatus(b: Batch, devices: Devices, p: Poll, r: Resolver)
    ensures var before, after := StatusIn(devices, p.device), StatusIn(PollApplied(devices, p, r), p.device);
            PollBatch(b, devices, p).changes
            == if before.None? || (p.answer.Some? && before == after) then b.changes
               else b.changes + [StatusChange(p.device, before.value, after.GetOr({}))]
  {
  }

  /** A turn of a partial sync tells the change if there is one. */
  lemma ReplyTellsStatus(devices: Devices, v: UpsVar)
    ensures var before, after := StatusIn(devices, v.device), StatusIn(VarApplied(devices, v), v.device);
            VarChange(devices, v)
            == if before == after then [] else [StatusChange(v.device, before.GetOr({}), after.GetOr({}))]
  {
  }

  /** A successful pass tells the insertions, the removals, and the redescribed devices that are known. */
  lemma {:induction false} KnownAreTold(devices: Devices, updated: seq<UpsDevice>, n: DeviceName)
    ensures n in KnownNames(devices, updated)
            <==> n in devices && exists i | 0 <= i < |updated| :: updated[i].name == n
  {
    if updated != [] {
      var most := updated[..|updated| - 1];
      KnownAreTold(devices, most, n);
      assert forall i | 0 <= i < |most| :: most[i] == updated[i];
    }
  }

  // ---------- Client events of a full sync ----------

  function AttachedTo(devices: Devices, n: DeviceName): seq<Addr> {
    if n in devices then Addrs(devices[n].attached) else []
  }

  function ClientEvents(b: Batch, arrived: bool): seq<DeviceClients> {
    if arrived then b.connections else b.disconnections
  }

  /** The address came, or went. */
  predicate Crosses(before: seq<Addr>, after: seq<Addr>, addr: Addr, arrived: bool) {
    if arrived then addr !in before && addr in after else addr in before && addr !in after
  }

  lemma {:induction false} WithoutHas(a: seq<Addr>, b: seq<Addr>, addr: Addr)
    ensures addr in Without(a, b) <==> addr in a && addr !in b
  {
    if a != [] {
      WithoutHas(a[..|a| - 1], b, addr);
      assert a == a[..|a| - 1] + [a[|a| - 1]];
    }
  }

  /** A turn of a full sync reports the clients that it attaches and detaches. */
  lemma TurnTellsClients(b: Batch, devices: Devices, p: Poll, r: Resolver, arrived: bool) returns (clients: seq<Addr>)
    ensures ClientEvents(PollBatch(b, devices, p), arrived)
            == ClientEvents(b, arrived) + if clients == [] then [] else [DeviceClients(p.device, clients)]
    ensures forall addr :: addr in clients <==>
              Crosses(AttachedTo(devices, p.device), AttachedTo(PollApplied(devices, p, r), p.device), addr, arrived)
  {
    clients := [];
    if p.device in devices && p.answer.Some? {
      var attached, ips := Addrs(devices[p.device].attached), p.answer.value.ips;
      clients := if arrived then Without(ips, attached) else Without(attached, ips);
      AttachedIsReported(devices[p.device].attached, ips, r);
      forall addr ensures addr in clients <==>
                            Crosses(attached, AttachedTo(PollApplied(devices, p, r), p.device), addr, arrived)
      {
        WithoutHas(ips, attached, addr);
        WithoutHas(attached, ips, addr);
      }
    }
  }

  /** The poll at `i` brought the address, or took it away. */
  predicate CrossedAt(devices: Devices, polls: seq<Poll>, r: Resolver, i: int, addr: Addr, arrived: bool) {
    && 0 <= i < |polls|
    && Crosses(AttachedTo(PollsApplied(devices, polls[..i], r), polls[i].device),
               AttachedTo(PollsApplied(devices, polls[..i + 1], r), polls[i].device), addr, arrived)
  }

  lemma CrossedInMost(devices: Devices, polls: seq<Poll>, r: Resolver, i: int, addr: Addr, arrived: bool)
    requires 0 <= i < |polls| - 1
    ensures CrossedAt(devices, polls[..|polls| - 1], r, i, addr, arrived)
            <==> CrossedAt(devices, polls, r, i, addr, arrived)
  {
    var most := polls[..|polls| - 1];
    assert most[..i] == polls[..i] && most[..i + 1] == polls[..i + 1];
  }

  /** Each report of connected or disconnected clients belongs to one poll of its device and names
      exactly the addresses that this poll brought or took away. */
  lemma {:induction false} ReportedClientsCrossed(devices: Devices, polls: seq<Poll>, r: Resolver, arrived: bool,
                                                  k: nat)
    returns (i: int)
    requires k < |ClientEvents(PollsBatch(devices, polls, r), arrived)|
    ensures var told := ClientEvents(PollsBatch(devices, polls, r), arrived)[k];
            && 0 <= i < |polls| && told.name == polls[i].device && told.clients != []
            && forall addr :: addr in told.clients <==> CrossedAt(devices, polls, r, i, addr, arrived)
  {
    var n := |polls| - 1;
    var most := polls[..n];
    var before := ClientEvents(PollsBatch(devices, most, r), arrived);
    var clients := TurnTellsClients(PollsBatch(devices, most, r), PollsApplied(devices, most, r), polls[n], r, arrived);
    if k < |before| {
      i := ReportedClientsCrossed(devices, most, r, arrived, k);
      forall addr
        ensures CrossedAt(devices, most, r, i, addr, arrived) <==> CrossedAt(devices, polls, r, i, addr, arrived)
      {
        CrossedInMost(devices, polls, r, i, addr, arrived);
      }
    } else {
      i := n;
      assert polls[..n + 1] == polls;
    }
  }

  /** Every address that a poll brought or took away is reported. */
  lemma {:induction false} CrossedClientsReported(devices: Devices, polls: seq<Poll>, r: Resolver, arrived: bool,
                                                  i: int, addr: Addr) returns (k: nat)
    requires CrossedAt(devices, polls, r, i, addr, arrived)
    ensures var told := ClientEvents(PollsBatch(devices, polls, r), arrived);
            k < |told| && told[k].name == polls[i].device && addr in told[k].clients
  {
    var n := |polls| - 1;
    var most := polls[..n];
    var before := ClientEvents(PollsBatch(devices, most, r), arrived);
    var clients := TurnTellsClients(PollsBatch(devices, most, r), PollsApplied(devices, most, r), polls[n], r, arrived);
    if i < n {
      CrossedInMost(devices, polls, r, i, addr, arrived);
      k := CrossedClientsReported(devices, most, r, arrived, i, addr);
    } else {
      assert polls[..n + 1] == polls;
      k := |before|;
    }
  }

  /** The devices reported as updated are the known ones that answered. */
  lemma {:induction false} UpdatedAreAnswered(devices: Devices, polls: seq<Poll>, r: Resolver, n: DeviceName)
    ensures n in PollsBatch(devices, polls, r).updated
            <==> n in devices && exists i | 0 <= i < |polls| :: polls[i].device == n && polls[i].answer.Some?
  {
    if polls != [] {
      var most, last := polls[..|polls| - 1], polls[|polls| - 1];
      UpdatedAreAnswered(devices, most, r, n);
      PollsKeepKnown(devices, most, r);
      assert forall i | 0 <= i < |most| :: most[i] == polls[i];
    }
  }
}
