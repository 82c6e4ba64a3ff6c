/** System events, the batches that collect them, and the channel that carries them. */
module Events {
  import opened Wrappers
  import opened UpsStatuses
  import opened AttachedClients

  type DeviceName = string

  datatype ConnectionStatus = Dead | Online | NotReady

  datatype StatusChange = StatusChange(name: DeviceName, before: UpsStatus, after: UpsStatus)

  datatype DeviceClients = DeviceClients(name: DeviceName, clients: seq<Addr>)

  datatype SystemEvent =
    | DeviceAddition(devices: seq<DeviceName>)
    | DeviceRemoval(devices: seq<DeviceName>)
    | DeviceUpdate(devices: seq<DeviceName>)
    | DeviceStatusChange(changes: seq<StatusChange>)
    | ClientDisconnection(clients: seq<DeviceClients>)
    | ClientConnection(clients: seq<DeviceClients>)
    | DaemonStatusUpdate(status: ConnectionStatus)

  /** An event that is sent if it has something to tell. */
  datatype Offer = Offer(wanted: bool, event: SystemEvent)

  function Wanted(offers: seq<Offer>): seq<SystemEvent> {
    if offers == [] then []
    else
      var last := offers[|offers| - 1];
      Wanted(offers[..|offers| - 1]) + (if last.wanted then [last.event] else [])
  }

  /** The events that are sent when the first `room` sends find a receiver and the next one does not:
      the failing send is the last that is tried. */
  function Delivered(events: seq<SystemEvent>, room: nat): (sent: seq<SystemEvent>)
    ensures sent <= events && (sent == events <==> |events| <= room)
  {
    if |events| <= room then events else events[..room]
  }

  lemma {:induction false} WantedGrows(offers: seq<Offer>, more: seq<Offer>)
    ensures Wanted(offers) <= Wanted(offers + more)
  {
    if more == [] {
      assert offers + more == offers;
    } else {
      WantedGrows(offers, more[..|more| - 1]);
      assert (offers + more)[..|offers + more| - 1] == offers + more[..|more| - 1];
    }
  }

  /** A broadcast channel: a send fails if nobody receives. The receivers leave after `room` more sends. */
  class EventChannel {
    var sent: seq<SystemEvent>
    var room: nat

    method Send(event: SystemEvent) returns (ok: bool)
      modifies this
      ensures ok == (old(room) > 0)
      ensures sent == old(sent) + Delivered([event], old(room))
      ensures room == if ok then old(room) - 1 else 0
    {
      ok := room > 0;
      if ok {
        sent, room := sent + [event], room - 1;
      }
    }

    /** The wanted offers have been sent as far as there was room. */
    ghost predicate HasSent(start: seq<SystemEvent>, firstRoom: nat, offers: seq<Offer>)
      reads this
    {
      && sent == start + Delivered(Wanted(offers), firstRoom)
      && room == firstRoom - |Delivered(Wanted(offers), firstRoom)|
    }

    /** The offers before `i` have been dealt with, and there was room for all that are wanted. */
    ghost predicate IsAt(start: seq<SystemEvent>, firstRoom: nat, offers: seq<Offer>, i: nat)
      reads this
    {
      i <= |offers| && HasSent(start, firstRoom, offers[..i]) && |Wanted(offers[..i])| <= firstRoom
    }

    /** There was no room for all offers that are wanted. */
    ghost predicate HasStopped(start: seq<SystemEvent>, firstRoom: nat, offers: seq<Offer>)
      reads this
    {
      HasSent(start, firstRoom, offers) && |Wanted(offers)| > firstRoom
    }

    /** The guarded send of the offer at `i` of a batch, after those before it. A failing send leaves
        the channel as the batch leaves it. */
    method SendOffer(offer: Offer, ghost offers: seq<Offer>, ghost i: nat,
                     ghost start: seq<SystemEvent>, ghost firstRoom: nat) returns (ok: bool)
      requires i < |offers| && offer == offers[i] && IsAt(start, firstRoom, offers, i)
      modifies this
      ensures ok ==> IsAt(start, firstRoom, offers, i + 1)
      ensures !ok ==> HasStopped(start, firstRoom, offers)
    {
      assert offers[..i + 1][..i] == offers[..i];
      ok := true;
      if offer.wanted {
        ok := Send(offer.event);
        WantedGrows(offers[..i + 1], offers[i + 1..]);
        assert offers[..i + 1] + offers[i + 1..] == offers;
      }
    }
  }

  /** What a batch holds. */
  datatype Batch = Batch(
    upsdStatus: Option<ConnectionStatus>,
    added: seq<DeviceName>,
    removed: seq<DeviceName>,
    changes: seq<StatusChange>,
    updated: seq<DeviceName>,
    disconnections: seq<DeviceClients>,
    connections: seq<DeviceClients>)

  const EMPTY_BATCH := Batch(None, [], [], [], [], [], [])

  /** What a batch offers, in the order of sending. */
  function Offers(b: Batch): seq<Offer> {
    [Offer(b.added != [], DeviceAddition(b.added)),
     Offer(b.removed != [], DeviceRemoval(b.removed)),
     Offer(b.updated != [], DeviceUpdate(b.updated)),
     Offer(b.changes != [], DeviceStatusChange(b.changes)),
     Offer(b.disconnections != [], ClientDisconnection(b.disconnections)),
     Offer(b.connections != [], ClientConnection(b.connections)),
     Offer(b.upsdStatus.Some?, DaemonStatusUpdate(b.upsdStatus.GetOr(Dead)))]
  }

  function EventsOf(b: Batch): seq<SystemEvent> {
    Wanted(Offers(b))
  }

  class EventBatch {
    var upsdStatus: Option<ConnectionStatus>
    var added: seq<DeviceName>
    var removed: seq<DeviceName>
    var changes: seq<StatusChange>
    var updated: seq<DeviceName>
    var disconnections: seq<DeviceClients>
    var connections: seq<DeviceClients>

    ghost function Contents(): Batch
      reads this
    {
      Batch(upsdStatus, added, removed, changes, updated, disconnections, connections)
    }

    constructor ()
      ensures Contents() == EMPTY_BATCH
    {
      upsdStatus, added, removed, changes := None, [], [], [];
      updated, disconnections, connections := [], [], [];
    }

    method NewDevice(name: DeviceName)
      modifies this
      ensures Contents() == old(Contents()).(added := old(added) + [name])
    {
      added := added + [name];
    }

    method RemovedDevice(name: DeviceName)
      modifies this
      ensures Contents() == old(Contents()).(removed := old(removed) + [name])
    {
      removed := removed + [name];
    }

    method UpdatedDevice(name: DeviceName)
      modifies this
      ensures Contents() == old(Contents()).(updated := old(updated) + [name])
    {
      updated := updated + [name];
    }

    method ChangeStatus(name: DeviceName, before: UpsStatus, after: UpsStatus)
      modifies this
      ensures Contents() == old(Contents()).(changes := old(changes) + [StatusChange(name, before, after)])
    {
      changes := changes + [StatusChange(name, before, after)];
    }

    method ClientConnect(name: DeviceName, connected: seq<Addr>)
      modifies this
      ensures Contents() == old(Contents()).(connections := old(connections) + [DeviceClients(name, connected)])
    {
      connections := connections + [DeviceClients(name, connected)];
    }

    method ClientDisconnect(name: DeviceName, disconnected: seq<Addr>)
      modifies this
      ensures Contents()
              == old(Contents()).(disconnections := old(disconnections) + [DeviceClients(name, disconnected)])
    {
      disconnections := disconnections + [DeviceClients(name, disconnected)];
    }

    method SetUpsdStatus(status: ConnectionStatus)
      modifies this
      ensures Contents() == old(Contents()).(upsdStatus := Some(status))
    {
      upsdStatus := Some(status);
    }

    /** The events about devices. */
    method SendDevices(channel: EventChannel) returns (ok: bool)
      modifies channel
      ensures ok ==> channel.IsAt(old(channel.sent), old(channel.room), Offers(Contents()), 3)
      ensures !ok ==> channel.HasStopped(old(channel.sent), old(channel.room), Offers(Contents()))
    {
      ghost var start, room, offers := channel.sent, channel.room, Offers(Contents());
      ok := channel.SendOffer(Offer(added != [], DeviceAddition(added)), offers, 0, start, room);
      if !ok {
        return;
      }
      ok := channel.SendOffer(Offer(removed != [], DeviceRemoval(removed)), offers, 1, start, room);
      if !ok {
        return;
      }
      ok := channel.SendOffer(Offer(updated != [], DeviceUpdate(updated)), offers, 2, start, room);
    }

    /** The events about clients. */
    method SendClients(channel: EventChannel, ghost start: seq<SystemEvent>, ghost room: nat) returns (ok: bool)
      requires channel.IsAt(start, room, Offers(Contents()), 4)
      modifies channel
      ensures ok ==> channel.IsAt(start, room, Offers(Contents()), 6)
      ensures !ok ==> channel.HasStopped(start, room, Offers(Contents()))
    {
      ghost var offers := Offers(Contents());
      ok := channel.SendOffer(Offer(disconnections != [], ClientDisconnection(disconnections)), offers, 4, start, room);
      if !ok {
        return;
      }
      ok := channel.SendOffer(Offer(connections != [], ClientConnection(connections)), offers, 5, start, room);
    }

    /** Sends the collected events in a fixed order; the first failing send ends it. */
    method Send(channel: EventChannel) returns (ok: bool)
      modifies channel
      ensures channel.HasSent(old(channel.sent), old(channel.room), Offers(Contents()))
      ensures ok == (|EventsOf(Contents())| <= old(channel.room))
    {
      ghost var start, room, offers := channel.sent, channel.room, Offers(Contents());
      ok := SendDevices(channel);
      if !ok {
        return;
      }
      ok := channel.SendOffer(Offer(changes != [], DeviceStatusChange(changes)), offers, 3, start, room);
      if !ok {
        return;
      }
      ok := SendClients(channel, start, room);
      if !ok {
        return;
      }
      ok := channel.SendOffer(Offer(upsdStatus.Some?, DaemonStatusUpdate(upsdStatus.GetOr(Dead))), offers, 6,
                              start, room);
      assert offers[..7] == offers;
    }
  }

  // ---------- Folding the additions and removals ----------

  function Applied(keys: set<DeviceName>, event: SystemEvent): set<DeviceName> {
    match event
    case DeviceAddition(names) => keys + (set n | n in names)
    case DeviceRemoval(names) => keys - (set n | n in names)
    case _ => keys
  }

  function Fold(keys: set<DeviceName>, events: seq<SystemEvent>): set<DeviceName> {
    if events == [] then keys
    else Applied(Fold(keys, events[..|events| - 1]), events[|events| - 1])
  }

  lemma {:induction false} FoldAppend(keys: set<DeviceName>, a: seq<SystemEvent>, b: seq<SystemEvent>)
    ensures Fold(keys, a + b) == Fold(Fold(keys, a), b)
  {
    if b == [] {
      assert a + b == a;
    } else {
      var most := b[..|b| - 1];
      FoldAppend(keys, a, most);
      assert (a + b)[..|a + b| - 1] == a + most;
    }
  }

  lemma FoldOffer(keys: set<DeviceName>, offers: seq<Offer>, offer: Offer)
    ensures Fold(keys, Wanted(offers + [offer]))
            == if offer.wanted then Applied(Fold(keys, Wanted(offers)), offer.event) else Fold(keys, Wanted(offers))
  {
    assert (offers + [offer])[..|offers|] == offers;
    var w := Wanted(offers);
    assert (w + [offer.event])[..|w|] == w && w + [] == w;
  }

  /** Offers of other events do not count. */
  lemma {:induction false} FoldOthers(keys: set<DeviceName>, offers: seq<Offer>, others: seq<Offer>)
    requires forall i | 0 <= i < |others| :: !others[i].event.DeviceAddition? && !others[i].event.DeviceRemoval?
    ensures Fold(keys, Wanted(offers + others)) == Fold(keys, Wanted(offers))
  {
    if others == [] {
      assert offers + others == offers;
    } else {
      var last := |others| - 1;
      FoldOthers(keys, offers, others[..last]);
      FoldOffer(keys, offers + others[..last], others[last]);
      assert offers + others == offers + others[..last] + [others[last]];
    }
  }

  /** Two offers and then only others. */
  lemma FoldTwo(keys: set<DeviceName>, first: Offer, second: Offer, others: seq<Offer>)
    requires forall i | 0 <= i < |others| :: !others[i].event.DeviceAddition? && !others[i].event.DeviceRemoval?
    ensures var k1 := if first.wanted then Applied(keys, first.event) else keys;
            Fold(keys, Wanted([first, second] + others)) == if second.wanted then Applied(k1, second.event) else k1
  {
    FoldOffer(keys, [], first);
    FoldOffer(keys, [first], second);
    assert [] + [first] == [first] && [first] + [second] == [first, second];
    FoldOthers(keys, [first, second], others);
  }

  /** A batch adds its new devices and then takes its removed ones away. */
  lemma FoldBatch(keys: set<DeviceName>, b: Batch)
    ensures Fold(keys, EventsOf(b)) == keys + (set n | n in b.added) - (set n | n in b.removed)
  {
    var offers := Offers(b);
    FoldTwo(keys, offers[0], offers[1], offers[2..]);
    assert [offers[0], offers[1]] + offers[2..] == offers;
  }
}
