/** Whole runs of the two sync services, arbitrarily interleaved. */
module SyncRuns {
  import opened Wrappers
  import opened UpsStatuses
  import opened UpsEvents
  import opened AttachedClients
  import opened Events
  import opened Daemons
  import opened DeviceSyncPass
  import opened SyncServices
  import opened StatusMirror

  ghost predicate CanRun(w: World, run: seq<Action>)
    decreases |run|
  {
    run == [] || (Enabled(w, run[0]) && CanRun(Next(w, run[0]), run[1..]))
  }

  ghost function After(w: World, run: seq<Action>): World
    requires CanRun(w, run)
    decreases |run|
  {
    if run == [] then w else After(Next(w, run[0]), run[1..])
  }

  ghost predicate Inv(w: World) {
    && PlanIsCurrent(w) && OnlineIffDevices(w.daemon) && ChannelTellsKeys(w)
    && Tells(w.log, w.daemon.devices)
  }

  lemma {:induction false} RunKeepsInv(w: World, run: seq<Action>)
    requires Inv(w) && CanRun(w, run)
    ensures Inv(After(w, run))
    decreases |run|
  {
    if run != [] {
      PlanStep(w, run[0]);
      OnlineStep(w, run[0]);
      ChannelStep(w, run[0]);
      LogStep(w, run[0]);
      RunKeepsInv(Next(w, run[0]), run[1..]);
    }
  }

  /** In every reachable state: the daemon is online exactly if it has devices and exactly if its
      versions are known, and the additions and removals sent so far tell which devices it has. */
  lemma ReachableIsConsistent(run: seq<Action>)
    requires CanRun(INITIAL, run)
    ensures var w := After(INITIAL, run);
            && Inv(w)
            && (w.daemon.status.Online? <==> w.daemon.devices != map[])
            && (w.daemon.status.Online? <==> w.daemon.protVer.Some?)
            && (w.daemon.status.Online? <==> w.daemon.ver.Some?)
            && Fold({}, w.channel) == w.daemon.devices.Keys
  {
    assert Inv(INITIAL);
    RunKeepsInv(INITIAL, run);
  }

  /** A successful pass, whatever the status sync did meanwhile, ends with exactly the reported
      names if no load task panicked. */
  lemma PassEndsWithReported(run: seq<Action>)
    requires CanRun(INITIAL, run) && After(INITIAL, run).device.Patching?
    requires var p := After(INITIAL, run).device;
             forall i | 0 <= i < |p.added| :: !p.added[i].load.Panicked?
    ensures var w := After(INITIAL, run);
            Next(w, ApplyPatch).daemon.devices.Keys == Reported(w.device.remote)
  {
    ReachableIsConsistent(run);
    var w := After(INITIAL, run);
    var p := w.device;
    KeysAreReported(w.daemon, p.snapshot, p.remote, p.plan, p.added, p.rechecked, p.r, p.patch);
  }

  /** The collected pass is about to be applied, which brings the daemon online with the versions asked
      for. */
  ghost predicate Succeeds(w: World, n: World)
    requires w.device.Loading?
  {
    && n.device.Patching? && n.daemon == w.daemon
    && var d := Next(n, ApplyPatch).daemon;
       && d.status.Online? && d.devices != map[]
       && d.protVer == Some(w.device.versions.protVer) && d.ver == Some(w.device.versions.ver)
  }

  /** The collected pass has failed, which takes all devices away. */
  ghost predicate Fails(n: World) {
    && n.device.Failing?
    && forall names | Enabled(n, ApplyFailure(names)) ::
         var d := Next(n, ApplyFailure(names)).daemon; d.status.Dead? && d.devices == map[]
  }

  lemma CollectDecides(w: World, a: Action)
    requires PlanIsCurrent(w) && Enabled(w, a) && a.Collect?
    ensures if SomeLoaded(a.added) || SomeLoaded(a.rechecked) || |a.added| + |a.rechecked| < |w.device.remote|
            then Succeeds(w, Next(w, a)) else Fails(Next(w, a))
  {
    var p, n := w.device, Next(w, a);
    PassFailsIff(p.snapshot, p.remote, p.plan, a.added, a.rechecked, p.versions, a.r);
    TasksAreReported(p.snapshot, p.remote, p.plan, a.added, a.rechecked);
    if n.device.Patching? {
      PlanStep(w, a);
      var q := n.device;
      SomeDeviceRemains(n.daemon, q.snapshot, q.remote, q.plan, q.added, q.rechecked, q.r, q.patch);
    }
  }

  /** In every run, a pass whose load tasks have finished succeeds if some of them loaded its device or
      some reported device needed none, and fails otherwise. */
  lemma LoadedPassSucceeds(run: seq<Action>, a: Action)
    requires CanRun(INITIAL, run) && Enabled(After(INITIAL, run), a) && a.Collect?
    ensures var w := After(INITIAL, run);
            if SomeLoaded(a.added) || SomeLoaded(a.rechecked) || |a.added| + |a.rechecked| < |w.device.remote|
            then Succeeds(w, Next(w, a)) else Fails(Next(w, a))
  {
    RunKeepsInv(INITIAL, run);
    CollectDecides(After(INITIAL, run), a);
  }

  /** The device is known and silent. */
  predicate IsPlaceholder(w: World, n: DeviceName) {
    Lookup(w.daemon.devices, n) == Some(PlaceholderEntry(n))
  }

  lemma PatchLeavesPlaceholder(w: World, n: DeviceName)
    requires PlanIsCurrent(w) && w.device.Patching? && n !in w.daemon.devices
    ensures var last := LastDelivery(w.device.added, n, false);
            IsPlaceholder(Next(w, ApplyPatch), n) <==> last.Some? && last.value.load.LoadFailed?
  {
    var p := w.device;
    NewDeviceIsPlaceholder(w.daemon, p.snapshot, p.remote, p.plan, p.added, p.rechecked, p.r, p.patch, n);
  }

  /** A device that is not known before a pass is known as silent after it exactly if the last task
      that produced an entry for it had failed to load its details. */
  lemma FailedDeviceIsPlaceholder(run: seq<Action>, n: DeviceName)
    requires CanRun(INITIAL, run) && After(INITIAL, run).device.Patching?
    requires n !in After(INITIAL, run).daemon.devices
    ensures var w := After(INITIAL, run);
            var last := LastDelivery(w.device.added, n, false);
            IsPlaceholder(Next(w, ApplyPatch), n) <==> last.Some? && last.value.load.LoadFailed?
  {
    RunKeepsInv(INITIAL, run);
    PatchLeavesPlaceholder(After(INITIAL, run), n);
  }

  /** If the daemon answers the questions asked, every reachable state mirrors `ups.status`. */
  lemma {:induction false} RunKeepsMirror(w: World, run: seq<Action>)
    requires MirrorHolds(w) && CanRun(w, run) && forall i | 0 <= i < |run| :: AnswersAsked(run[i])
    ensures MirrorHolds(After(w, run))
    decreases |run|
  {
    if run != [] {
      MirrorStep(w, run[0]);
      RunKeepsMirror(Next(w, run[0]), run[1..]);
    }
  }

  // ---------- Events over the life of a device ----------

  /** The statuses of a device from its last insertion on. */
  function ChainOf(log: seq<Mark>, n: DeviceName): seq<UpsStatus> {
    if log == [] then []
    else
      var before := ChainOf(log[..|log| - 1], n);
      var last := log[|log| - 1];
      if last.name != n then before
      else match last
        case Insertion(_, status) => [status]
        case Removal(_) => []
        case Change(_, _, after) => before + [after]
  }

  /** How many changes recorded since the last insertion raise the event. */
  ghost function RaisedSince(log: seq<Mark>, n: DeviceName, e: UpsEvent): nat {
    if log == [] then 0
    else
      var before := RaisedSince(log[..|log| - 1], n, e);
      var last := log[|log| - 1];
      if last.name != n then before
      else match last
        case Change(_, old_, new_) => before + (if Raised(e, old_, new_) then 1 else 0)
        case _ => 0
  }

  lemma {:induction false} CountAppend(chain: seq<UpsStatus>, s: UpsStatus, e: UpsEvent)
    requires chain != []
    ensures Count(chain + [s], e) == Count(chain, e) + if Raised(e, chain[|chain| - 1], s) then 1 else 0
  {
    if |chain| == 1 {
      assert (chain + [s])[1..] == [s];
    } else {
      CountAppend(chain[1..], s, e);
      assert (chain + [s])[1..] == chain[1..] + [s];
    }
  }

  /** In an unbroken log the recorded changes of a device run through its chain of statuses. */
  lemma {:induction false} ChainIsUnbroken(log: seq<Mark>, n: DeviceName, e: UpsEvent)
    requires Unbroken(log)
    ensures ChainOf(log, n) != [] <==> n in Track(log)
    ensures n in Track(log) ==> Track(log)[n] == ChainOf(log, n)[|ChainOf(log, n)| - 1]
    ensures RaisedSince(log, n, e) == Count(ChainOf(log, n), e)
  {
    if log != [] {
      var most, last := log[..|log| - 1], log[|log| - 1];
      ChainIsUnbroken(most, n, e);
      if last.Change? && last.name == n {
        CountAppend(ChainOf(most, n), last.after, e);
      }
    }
  }

  /** For every known device and every paired flag, the on-events since the device was inserted
      outnumber the off-events by the flag now minus the flag at the insertion. */
  lemma EventsAddUp(run: seq<Action>, n: DeviceName, flag: nat)
    requires CanRun(INITIAL, run) && n in After(INITIAL, run).daemon.devices && Paired(flag)
    ensures var w := After(INITIAL, run);
            && ChainOf(w.log, n) != []
            && RaisedSince(w.log, n, OnEvent(flag).value) - RaisedSince(w.log, n, OffEvent(flag).value)
               == BitOf(w.daemon.devices[n].status, flag) - BitOf(ChainOf(w.log, n)[0], flag)
  {
    ReachableIsConsistent(run);
    var w := After(INITIAL, run);
    assert n in Track(w.log);
    ChainIsUnbroken(w.log, n, OnEvent(flag).value);
    ChainIsUnbroken(w.log, n, OffEvent(flag).value);
    OnMinusOff(ChainOf(w.log, n), flag);
  }
}
