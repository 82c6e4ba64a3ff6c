/** What every step of the pool keeps, whatever the interleaving. */
module PoolInvariants {
  import opened Wrappers
  import opened Pool

  // ---------- Counting tasks ----------

  function Sum(tasks: seq<Task>, f: Task -> nat): nat {
    if tasks == [] then 0 else Sum(tasks[..|tasks| - 1], f) + f(tasks[|tasks| - 1])
  }

  lemma {:induction false} SumUpdate(tasks: seq<Task>, f: Task -> nat, t: nat, task: Task)
    requires t < |tasks|
    ensures Sum(tasks[t := task], f) + f(tasks[t]) == Sum(tasks, f) + f(task)
  {
    var last := |tasks| - 1;
    if t < last {
      SumUpdate(tasks[..last], f, t, task);
      assert tasks[t := task][..last] == tasks[..last][t := task];
    } else {
      assert tasks[t := task][..last] == tasks[..last];
    }
  }

  lemma SumAppend(tasks: seq<Task>, f: Task -> nat, task: Task)
    ensures Sum(tasks + [task], f) == Sum(tasks, f) + f(task)
  {
    assert (tasks + [task])[..|tasks|] == tasks;
  }

  /** Summing a smaller function over tasks gives less, by as much as one of them is smaller. */
  lemma {:induction false} SumBelow(tasks: seq<Task>, f: Task -> nat, g: Task -> nat, t: nat)
    requires forall i | 0 <= i < |tasks| :: f(tasks[i]) <= g(tasks[i])
    requires t < |tasks|
    ensures Sum(tasks, f) + g(tasks[t]) <= Sum(tasks, g) + f(tasks[t])
  {
    var last := |tasks| - 1;
    if t < last {
      SumBelow(tasks[..last], f, g, t);
    } else if last > 0 {
      SumBelow(tasks[..last], f, g, 0);
    }
  }

  /** A sum that is not zero has a task that contributes. */
  lemma {:induction false} Contributor(tasks: seq<Task>, f: Task -> nat) returns (t: nat)
    requires Sum(tasks, f) > 0
    ensures t < |tasks| && f(tasks[t]) > 0
  {
    t := |tasks| - 1;
    if f(tasks[t]) == 0 {
      t := Contributor(tasks[..t], f);
    }
  }

  function Permit(task: Task): nat {
    if HasPermit(task) then 1 else 0
  }

  /** A connection held, or one that is being opened. */
  function Slot(task: Task): nat {
    if HeldConn(task).Some? || task.Initializing? then 1 else 0
  }

  // ---------- The invariants ----------

  /** Each permit is with the semaphore or with one task. */
  predicate PermitsConserved(s: State) {
    s.permits + Sum(s.tasks, Permit) == s.limit
  }

  /** The mutex is held by exactly the task that believes to hold it. */
  predicate LockExclusive(s: State) {
    forall t | 0 <= t < |s.tasks| :: HasLock(s.tasks[t]) <==> s.lock == Some(t)
  }

  predicate LockHeld(s: State) {
    s.lock.Some? ==> s.lock.value < |s.tasks|
  }

  /** Each connection ever opened is in exactly one place: once in the deque, with the one task
      that holds it, handed out, or destroyed. */
  predicate Located(s: State) {
    && |s.conns| == |s.place|
    && (forall t | 0 <= t < |s.tasks| && HeldConn(s.tasks[t]).Some? :: HolderIsKnown(s, t))
    && (forall c | 0 <= c < |s.place| && s.place[c].HeldBy? :: PlaceIsHeld(s, c))
    && (forall k | 0 <= k < |s.idle| :: s.idle[k] < |s.place| && s.place[s.idle[k]] == Idle)
    && (forall c | 0 <= c < |s.place| && s.place[c].Idle? :: c in s.idle)
    && (forall j, k | 0 <= j < k < |s.idle| :: s.idle[j] != s.idle[k])
  }

  predicate HolderIsKnown(s: State, t: nat)
    requires t < |s.tasks| && HeldConn(s.tasks[t]).Some?
  {
    var c := HeldConn(s.tasks[t]).value;
    c < |s.place| && s.place[c] == HeldBy(t)
  }

  predicate PlaceIsHeld(s: State, c: nat)
    requires c < |s.place| && s.place[c].HeldBy?
  {
    s.place[c].task < |s.tasks| && HeldConn(s.tasks[s.place[c].task]) == Some(c)
  }

  /** Idle connections, connections that a task holds and connections being opened fit the limit. */
  predicate WithinLimit(s: State) {
    |s.idle| + Sum(s.tasks, Slot) <= s.limit
  }

  /** Every connection that can still be used is at a response boundary. */
  predicate AllAtBoundary(s: State) {
    |s.conns| == |s.place| && forall c | 0 <= c < |s.conns| && Usable(s, c) :: AtBoundary(s.conns[c])
  }

  predicate Usable(s: State, c: nat)
    requires c < |s.place|
  {
    match s.place[c]
    case Destroyed => false
    case HeldBy(t) => t < |s.tasks| && !s.tasks[t].Rejecting?
    case _ => true
  }

  /** After close, a connection is pushed only if its release had passed the test before, and after
      a clear only such connections are in the deque. */
  predicate OnlyLateReleases(s: State) {
    s.closed ==>
      && (forall t | 0 <= t < |s.tasks| && s.tasks[t].Pushing? :: s.tasks[t].conn in s.late)
      && (s.cleared ==> forall k | 0 <= k < |s.idle| :: s.idle[k] in s.late)
  }

  predicate ClearedAfterClose(s: State) {
    s.cleared ==> s.closed
  }

  predicate Inv(s: State) {
    && PermitsConserved(s) && LockExclusive(s) && LockHeld(s) && Located(s) && WithinLimit(s)
    && AllAtBoundary(s) && OnlyLateReleases(s) && ClearedAfterClose(s)
  }

  // ---------- What a step changes ----------

  /** The step changes the task that takes it and no other; permits and the lock move between that
      task and the semaphore or mutex. */
  predicate Accounts(s: State, n: State, t: TaskId) {
    && t < |s.tasks| == |n.tasks| && n.tasks == s.tasks[t := n.tasks[t]]
    && n.limit == s.limit
    && n.permits + Permit(n.tasks[t]) == s.permits + Permit(s.tasks[t])
    && (HasLock(n.tasks[t]) && !HasLock(s.tasks[t]) ==> s.lock == None && n.lock == Some(t))
    && (!HasLock(n.tasks[t]) && HasLock(s.tasks[t]) ==> n.lock == None)
    && (HasLock(n.tasks[t]) == HasLock(s.tasks[t]) ==> n.lock == s.lock)
  }

  /** How a step moves connections. */
  datatype Flow = Stay | Take(k: nat) | Open | Put | LetGo(place: Place)

  function FlowOf(s: State, a: Action): Flow
    requires Enabled(s, a)
  {
    match a
    case Pop(t) => if s.idle == [] then Stay else Take(0)
    case ClearNext(t) => if s.idle == [] then Stay else Take(|s.idle| - 1)
    case InitDone(t, ok) => if ok then Open else Stay
    case CheckDone(t, verdict) => if verdict.Ready? && s.tasks[t].mode.Checkout? then LetGo(HandedOut) else Stay
    case ExchangeDone(t, outcome) => if Drops(outcome) then LetGo(Destroyed) else Stay
    case Push(t) => Put
    case DeallocDone(t) => LetGo(Destroyed)
    case Cancel(t, _) => if HeldConn(s.tasks[t]).Some? then LetGo(Destroyed) else Stay
    case _ => Stay
  }

  predicate Moves(s: State, n: State, t: TaskId, f: Flow)
    requires t < |s.tasks| == |n.tasks|
  {
    var before, after := HeldConn(s.tasks[t]), HeldConn(n.tasks[t]);
    match f
    case Stay => n.idle == s.idle && n.place == s.place && before == after
    case Take(k) =>
      && k < |s.idle| && s.idle[k] < |s.place|
      && before == None && after == Some(s.idle[k])
      && n.idle == s.idle[..k] + s.idle[k + 1..] && n.place == s.place[s.idle[k] := HeldBy(t)]
    case Open =>
      && n.idle == s.idle && before == None
      && (after == None || after == Some(|s.place|))
      && n.place == s.place + [if after == None then HandedOut else HeldBy(t)]
    case Put =>
      && before.Some? && before.value < |s.place| && after == None
      && n.idle == s.idle + [before.value] && n.place == s.place[before.value := Idle]
    case LetGo(p) =>
      && before.Some? && before.value < |s.place| && after == None
      && (p == HandedOut || p == Destroyed)
      && n.idle == s.idle && n.place == s.place[before.value := p]
  }

  /** A connection is used only by the task that holds it. Unless a whole reply has been taken, it
      failed its check or is destroyed. */
  predicate Uses(s: State, n: State, t: TaskId)
    requires t < |s.tasks| == |n.tasks|
  {
    && |n.conns| == |n.place|
    && |s.conns| == |s.place| <= |n.place|
    && (forall c | 0 <= c < |s.conns| && n.conns[c] != s.conns[c] ::
          HeldConn(s.tasks[t]) == Some(c) &&
          (RepliedTo(s.conns[c], n.conns[c]) || n.tasks[t].Rejecting? || n.place[c] == Destroyed))
    && (forall c | |s.conns| <= c < |n.conns| :: n.conns[c] == NewConn)
    && (s.tasks[t].Rejecting? ==> s.tasks[t].conn < |n.place| && n.place[s.tasks[t].conn] == Destroyed)
  }

  predicate RepliedTo(c: Conn, d: Conn) {
    AtBoundary(c) ==> AtBoundary(d)
  }

  /** The semaphore stays open or closed, and no task comes to push once it is closed. */
  predicate Late(s: State, n: State, t: TaskId)
    requires t < |s.tasks| == |n.tasks|
  {
    && n.closed == s.closed && n.late == s.late
    && (n.cleared == s.cleared || (s.closed && n.cleared && n.idle == []))
    && (s.closed && n.tasks[t].Pushing? ==> s.tasks[t] == n.tasks[t])
  }

  predicate Steps(s: State, a: Action, n: State)
    requires Enabled(s, a) && !a.Spawn?
  {
    && Accounts(s, n, a.t) && Moves(s, n, a.t, FlowOf(s, a)) && Uses(s, n, a.t)
    && (!a.ClosePermits? ==> Late(s, n, a.t))
    && (FlowOf(s, a).Put? ==> s.tasks[a.t].Pushing?)
  }

  lemma PopSteps(s: State, a: Action)
    requires Enabled(s, a) && a.Pop? && s.idle != []
    ensures Steps(s, a, Next(s, a))
  {
  }

  lemma PopNothingSteps(s: State, a: Action)
    requires Enabled(s, a) && a.Pop? && s.idle == []
    ensures Steps(s, a, Next(s, a))
  {
  }

  lemma InitSteps(s: State, a: Action)
    requires Enabled(s, a) && a.InitDone?
    ensures Steps(s, a, Next(s, a))
  {
  }

  lemma ReadySteps(s: State, a: Action)
    requires Enabled(s, a) && a.CheckDone? && a.verdict.Ready? && !s.tasks[a.t].mode.Checkout?
    ensures Steps(s, a, Next(s, a))
  {
    KeepsBoundary(s.conns[s.tasks[a.t].conn], a.verdict.answer);
  }

  lemma HandedOutSteps(s: State, a: Action)
    requires Enabled(s, a) && a.CheckDone? && a.verdict.Ready? && s.tasks[a.t].mode.Checkout?
    ensures Steps(s, a, Next(s, a))
  {
    KeepsBoundary(s.conns[s.tasks[a.t].conn], a.verdict.answer);
  }

  lemma KeepsBoundary(c: Conn, answer: Answer)
    requires Answers(c, answer)
    ensures RepliedTo(c, AfterReply(c, answer))
  {
    if AtBoundary(c) {
      ReplyKeepsBoundary(c, answer);
    }
  }

  lemma UnfitSteps(s: State, a: Action)
    requires Enabled(s, a) && a.CheckDone? && a.verdict.Unfit?
    ensures Steps(s, a, Next(s, a))
  {
  }

  predicate Drops(outcome: Outcome) {
    outcome.Broken? || outcome.PoolClosedKind?
  }

  lemma ReplySteps(s: State, a: Action)
    requires Enabled(s, a) && a.ExchangeDone? && !Drops(a.outcome)
    ensures Steps(s, a, Next(s, a))
  {
    KeepsBoundary(s.conns[s.tasks[a.t].conn], a.outcome.answer);
  }

  lemma DropSteps(s: State, a: Action)
    requires Enabled(s, a) && a.ExchangeDone? && Drops(a.outcome)
    ensures Steps(s, a, Next(s, a))
  {
  }

  lemma PushSteps(s: State, a: Action)
    requires Enabled(s, a) && a.Push?
    ensures Steps(s, a, Next(s, a))
  {
  }

  lemma DeallocSteps(s: State, a: Action)
    requires Enabled(s, a) && a.DeallocDone?
    ensures Steps(s, a, Next(s, a))
  {
  }

  lemma ClearSteps(s: State, a: Action)
    requires Enabled(s, a) && a.ClearNext?
    ensures Steps(s, a, Next(s, a))
  {
  }

  lemma CancelSteps(s: State, a: Action)
    requires Enabled(s, a) && a.Cancel?
    ensures Steps(s, a, Next(s, a))
  {
  }

  lemma PermitSteps(s: State, a: Action)
    requires Enabled(s, a) && (a.Acquire? || a.Leave?)
    ensures Steps(s, a, Next(s, a))
  {
  }

  lemma OtherSteps(s: State, a: Action)
    requires Enabled(s, a) && (a.Test? || a.ClosePermits? || a.TakeLock?)
    ensures Steps(s, a, Next(s, a))
  {
  }

  lemma StepSteps(s: State, a: Action)
    requires Enabled(s, a) && !a.Spawn?
    ensures Steps(s, a, Next(s, a))
  {
    match a
    case Pop(_) => if s.idle == [] { PopNothingSteps(s, a); } else { PopSteps(s, a); }
    case InitDone(_, _) => InitSteps(s, a);
    case CheckDone(t, Ready(_)) => if s.tasks[t].mode.Checkout? { HandedOutSteps(s, a); } else { ReadySteps(s, a); }
    case CheckDone(_, Unfit(_)) => UnfitSteps(s, a);
    case ExchangeDone(_, outcome) => if Drops(outcome) { DropSteps(s, a); } else { ReplySteps(s, a); }
    case Push(_) => PushSteps(s, a);
    case DeallocDone(_) => DeallocSteps(s, a);
    case ClearNext(_) => ClearSteps(s, a);
    case Cancel(_, _) => CancelSteps(s, a);
    case Acquire(_) => PermitSteps(s, a);
    case Leave(_) => PermitSteps(s, a);
    case _ => OtherSteps(s, a);
  }

  // ---------- Preservation, one invariant at a time ----------

  /** How a step changes a sum over the tasks. */
  lemma SumStep(s: State, a: Action, f: Task -> nat)
    requires Enabled(s, a)
    ensures a.Spawn? ==> Sum(Next(s, a).tasks, f) == Sum(s.tasks, f) + f(a.task)
    ensures !a.Spawn? ==> Accounts(s, Next(s, a), a.t)
    ensures !a.Spawn? ==> Sum(Next(s, a).tasks, f) + f(s.tasks[a.t]) == Sum(s.tasks, f) + f(Next(s, a).tasks[a.t])
  {
    if a.Spawn? {
      SumAppend(s.tasks, f, a.task);
    } else {
      StepSteps(s, a);
      SumUpdate(s.tasks, f, a.t, Next(s, a).tasks[a.t]);
    }
  }

  lemma PermitsStep(s: State, a: Action)
    requires PermitsConserved(s) && Enabled(s, a)
    ensures PermitsConserved(Next(s, a))
  {
    SumStep(s, a, Permit);
  }

  lemma LockKept(s: State, n: State, t: TaskId)
    requires LockExclusive(s) && LockHeld(s) && Accounts(s, n, t)
    ensures LockExclusive(n) && LockHeld(n)
  {
  }

  lemma StayLocated(s: State, n: State, t: TaskId)
    requires Located(s) && Accounts(s, n, t) && Moves(s, n, t, Stay) && |n.conns| == |n.place|
    ensures Located(n)
  {
  }

  lemma TakeLocated(s: State, n: State, t: TaskId, k: nat)
    requires Located(s) && Accounts(s, n, t) && Moves(s, n, t, Take(k)) && |n.conns| == |n.place|
    ensures Located(n)
  {
  }

  lemma OpenLocated(s: State, n: State, t: TaskId)
    requires Located(s) && Accounts(s, n, t) && Moves(s, n, t, Open) && |n.conns| == |n.place|
    ensures Located(n)
  {
  }

  lemma PutLocated(s: State, n: State, t: TaskId)
    requires Located(s) && Accounts(s, n, t) && Moves(s, n, t, Put) && |n.conns| == |n.place|
    ensures Located(n)
  {
  }

  lemma LetGoLocated(s: State, n: State, t: TaskId, p: Place)
    requires Located(s) && Accounts(s, n, t) && Moves(s, n, t, LetGo(p)) && |n.conns| == |n.place|
    ensures Located(n)
  {
  }

  lemma LocatedKept(s: State, n: State, t: TaskId, f: Flow)
    requires Located(s) && Accounts(s, n, t) && Moves(s, n, t, f) && |n.conns| == |n.place|
    ensures Located(n)
  {
    match f
    case Stay => StayLocated(s, n, t);
    case Take(k) => TakeLocated(s, n, t, k);
    case Open => OpenLocated(s, n, t);
    case Put => PutLocated(s, n, t);
    case LetGo(p) => LetGoLocated(s, n, t, p);
  }

  lemma BoundaryKept(s: State, n: State, t: TaskId, f: Flow)
    requires Located(s) && AllAtBoundary(s) && Accounts(s, n, t) && Moves(s, n, t, f) && Uses(s, n, t)
    requires Located(n)
    ensures AllAtBoundary(n)
  {
    forall c | 0 <= c < |n.conns| && Usable(n, c) ensures AtBoundary(n.conns[c]) {
      UsableKept(s, n, t, f, c);
    }
  }

  /** A connection that is usable after the step is new, or was usable before and is unchanged or
      has had one more reply. */
  lemma UsableKept(s: State, n: State, t: TaskId, f: Flow, c: ConnId)
    requires Located(s) && Located(n) && Accounts(s, n, t) && Moves(s, n, t, f) && Uses(s, n, t)
    requires c < |n.conns| && Usable(n, c)
    ensures c < |s.conns| ==> Usable(s, c) && (n.conns[c] == s.conns[c] || RepliedTo(s.conns[c], n.conns[c]))
    ensures c >= |s.conns| ==> n.conns[c] == NewConn
  {
    if c < |s.conns| {
      if HeldConn(s.tasks[t]) == Some(c) {
        assert HolderIsKnown(s, t);
      }
      if n.place[c].HeldBy? {
        assert PlaceIsHeld(n, c);
      }
    }
  }

  /** A connection is opened only when the deque is empty and nobody is clearing it, so that every
      slot that is in use has a permit of its own and the opening task has one to spare. */
  lemma RoomToOpen(s: State, a: Action)
    requires PermitsConserved(s) && LockExclusive(s) && Enabled(s, a) && a.Pop? && s.idle == []
    ensures Sum(s.tasks, Slot) < s.limit
  {
    SumBelow(s.tasks, Slot, Permit, a.t);
  }

  /** Every other step keeps the number of idle connections and used slots or lowers it. */
  lemma SlotsStep(s: State, a: Action)
    requires Enabled(s, a) && !a.Spawn?
    ensures a.t < |s.tasks| == |Next(s, a).tasks|
    ensures |Next(s, a).idle| + Slot(Next(s, a).tasks[a.t])
            <= |s.idle| + Slot(s.tasks[a.t]) + (if a.Pop? && s.idle == [] then 1 else 0)
  {
    StepSteps(s, a);
    if a.InitDone? {
      InitTakesNoSlot(s, a);
    }
    match a {
      case Acquire(_) => GetTakesNoSlot(s, a);
      case InitDone(_, _) => GetTakesNoSlot(s, a);
      case CheckDone(_, _) => GetTakesNoSlot(s, a);
      case ExchangeDone(_, _) => GetTakesNoSlot(s, a);
      case Pop(_) =>
      case _ => ReleaseTakesNoSlot(s, a);
    }
  }

  lemma InitTakesNoSlot(s: State, a: Action)
    requires Enabled(s, a) && a.InitDone?
    ensures s.tasks[a.t].Initializing? && Next(s, a).idle == s.idle
  {
  }

  /** Only popping leads to opening a connection. */
  lemma GetTakesNoSlot(s: State, a: Action)
    requires Enabled(s, a) && (a.Acquire? || a.InitDone? || a.CheckDone? || a.ExchangeDone?)
    ensures a.t < |Next(s, a).tasks| && !Next(s, a).tasks[a.t].Initializing?
  {
  }

  lemma ReleaseTakesNoSlot(s: State, a: Action)
    requires Enabled(s, a) && !a.Spawn? && !a.Pop?
    requires !a.Acquire? && !a.InitDone? && !a.CheckDone? && !a.ExchangeDone?
    ensures a.t < |Next(s, a).tasks| && !Next(s, a).tasks[a.t].Initializing?
  {
  }

  lemma LimitStep(s: State, a: Action)
    requires PermitsConserved(s) && LockExclusive(s) && WithinLimit(s) && Enabled(s, a)
    ensures WithinLimit(Next(s, a))
  {
    SumStep(s, a, Slot);
    if a.Spawn? {
      assert Next(s, a).idle == s.idle;
    } else {
      SlotsStep(s, a);
      if a.Pop? && s.idle == [] {
        RoomToOpen(s, a);
      }
    }
  }

  lemma LateKept(s: State, n: State, t: TaskId, f: Flow)
    requires OnlyLateReleases(s) && ClearedAfterClose(s)
    requires Accounts(s, n, t) && Moves(s, n, t, f) && Late(s, n, t)
    requires f.Put? ==> s.tasks[t].Pushing?
    ensures OnlyLateReleases(n) && ClearedAfterClose(n)
  {
  }

  lemma CloseRecordsLate(s: State, a: Action)
    requires OnlyLateReleases(s) && ClearedAfterClose(s) && Enabled(s, a) && a.ClosePermits?
    ensures OnlyLateReleases(Next(s, a)) && ClearedAfterClose(Next(s, a))
  {
  }

  lemma InvStep(s: State, a: Action)
    requires Inv(s) && Enabled(s, a)
    ensures Inv(Next(s, a))
  {
    PermitsStep(s, a);
    LimitStep(s, a);
    if !a.Spawn? {
      StepSteps(s, a);
      LockKept(s, Next(s, a), a.t);
      LocatedKept(s, Next(s, a), a.t, FlowOf(s, a));
      BoundaryKept(s, Next(s, a), a.t, FlowOf(s, a));
      if a.ClosePermits? {
        CloseRecordsLate(s, a);
      } else {
        LateKept(s, Next(s, a), a.t, FlowOf(s, a));
      }
    }
  }
}
