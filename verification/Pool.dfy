/** The connection pool and the calls that use it, as a transition system over await points.

    Every step is one stretch of code between two await points of one task. The semaphore, the
    mutex around the deque and the streams are taken as atomic primitives; the allocator, the
    liveness check and the daemon answer as they like. */
module Pool {
  import opened Wrappers
  import opened Framing

  type ConnId = nat
  type TaskId = nat

  // ---------- Connections ----------

  /** What the daemon has sent in response to commands, what the client has taken as replies, what
      has arrived and is not consumed, and whether the daemon has closed the stream. */
  datatype Conn = Conn(sent: seq<string>, got: seq<string>, unread: string, eof: bool)

  /** A daemon sends one well-framed response for a command, or closes the stream inside it. */
  datatype Answer =
    | Whole(lines: seq<string>)
    | Cut(lines: seq<string>, length: nat)

  predicate ValidAnswer(a: Answer) {
    IsResponse(a.lines) && (a.Cut? ==> a.length <= |Concat(a.lines)|)
  }

  function Delivered(a: Answer): string
    requires ValidAnswer(a)
  {
    if a.Whole? then Concat(a.lines) else Concat(a.lines)[..a.length]
  }

  /** All bytes that the next reply can be read from. */
  function Stream(c: Conn, a: Answer): string
    requires ValidAnswer(a)
  {
    if c.eof then c.unread else c.unread + Delivered(a)
  }

  function Closed(c: Conn, a: Answer): bool {
    c.eof || a.Cut?
  }

  /** The reply that the framing loop takes. */
  function ReplyTo(c: Conn, a: Answer): Reply
    requires ValidAnswer(a)
  {
    ReplyAt(Stream(c, a), 0, Closed(c, a))
  }

  /** A reply that is not empty has been received. */
  predicate Replied(c: Conn, a: Answer)
    requires ValidAnswer(a)
  {
    !ReplyTo(c, a).RequestTimeout? && ReplyTo(c, a).text != []
  }

  predicate Answers(c: Conn, a: Answer) {
    ValidAnswer(a) && Replied(c, a)
  }

  function AfterReply(c: Conn, a: Answer): Conn
    requires Answers(c, a)
  {
    var end := ReplyEnd(Stream(c, a), 0, Closed(c, a)).value;
    Conn(c.sent + [Concat(a.lines)], c.got + [Stream(c, a)[..end]], Stream(c, a)[end..], Closed(c, a))
  }

  /** Nothing is left over: each response has been taken by its own command. Only the response in
      which the stream was closed may be incomplete. */
  predicate AtBoundary(c: Conn) {
    && c.unread == []
    && |c.got| == |c.sent|
    && forall k | 0 <= k < |c.sent| ::
         c.got[k] == c.sent[k] || (c.eof && k == |c.sent| - 1 && c.got[k] <= c.sent[k])
  }

  const NewConn := Conn([], [], [], false)

  /** At a boundary, the next reply takes all that there is. */
  lemma ReplyTakesAll(c: Conn, a: Answer)
    requires c.unread == [] && Answers(c, a)
    ensures !c.eof && Stream(c, a) == Delivered(a)
    ensures ReplyEnd(Stream(c, a), 0, Closed(c, a)) == Some(|Stream(c, a)|)
  {
    var s := Stream(c, a);
    if !c.eof {
      assert s == Delivered(a);
      if a.Whole? {
        assert s[0..|s|] == s;
        ResponseIsTaken(s, 0, a.lines, false);
      } else {
        CutResponseIsTakenWhole(a.lines, a.length);
      }
    }
  }

  lemma ReplyKeepsBoundary(c: Conn, a: Answer)
    requires AtBoundary(c) && Answers(c, a)
    ensures AtBoundary(AfterReply(c, a)) && !c.eof
  {
    ReplyTakesAll(c, a);
    var s := Stream(c, a);
    assert s[..|s|] == s && s[|s|..] == [];
  }

  // ---------- Tasks ----------

  /** Which `get` a task runs: the unchecked one of a first attempt, the checked one of the retry,
      or the checked one of `get_client`, which takes the connection out of the pool. */
  datatype Mode = FirstTry | Retry | Checkout

  datatype Task =
    | Waiting(mode: Mode)                    // for a permit
    | Popping(mode: Mode)                    // for the lock, to pop an idle connection
    | Initializing(mode: Mode)
    | Checking(mode: Mode, conn: ConnId)
    | Rejecting(mode: Mode, conn: ConnId)    // deallocating a connection that failed the check
    | Exchanging(mode: Mode, conn: ConnId)
    | Testing(conn: ConnId)                  // release: about to test the semaphore
    | Deallocating(conn: ConnId)             // release into a closed pool
    | Pushing(conn: ConnId)                  // release: for the lock, to push
    | Leaving                                // released, permit still held
    | Closing                                // close: about to close the semaphore
    | AwaitingLock                           // clear: for the lock
    | Clearing                               // clear: holding the lock
    | ClearingOne(conn: ConnId)              // clear: deallocating a popped connection
    | Finished

  function HeldConn(task: Task): Option<ConnId> {
    match task
    case Checking(_, c) => Some(c)
    case Rejecting(_, c) => Some(c)
    case Exchanging(_, c) => Some(c)
    case Testing(c) => Some(c)
    case Deallocating(c) => Some(c)
    case Pushing(c) => Some(c)
    case ClearingOne(c) => Some(c)
    case _ => None
  }

  predicate HasPermit(task: Task) {
    !(task.Waiting? || task.Closing? || task.AwaitingLock? || task.Clearing? || task.ClearingOne? ||
      task.Finished?)
  }

  predicate HasLock(task: Task) {
    task.Clearing? || task.ClearingOne?
  }

  // ---------- States and steps ----------

  /** Where a connection is. */
  datatype Place = Idle | HeldBy(task: TaskId) | HandedOut | Destroyed

  datatype State = State(
    limit: nat,
    permits: nat,
    closed: bool,
    idle: seq<ConnId>,
    lock: Option<TaskId>,
    tasks: seq<Task>,
    conns: seq<Conn>,
    place: seq<Place>,
    // bookkeeping: the connections whose release had passed the test when the pool was closed, and
    // whether a clear has finished since
    late: set<ConnId>,
    cleared: bool)

  function Initial(limit: nat): State {
    State(limit, limit, false, [], None, [], [], [], {}, false)
  }

  /** How a request on a connection ends: `Ok`, an error of the kinds that leave the connection
      usable, an I/O error, time-out or empty response, or the pool-closed kind. The last two leave
      the connection in any state at all. */
  datatype Outcome =
    | Completed(answer: Answer)
    | Refused(answer: Answer)
    | Broken(left: Conn)
    | PoolClosedKind(left: Conn)

  datatype Verdict = Ready(answer: Answer) | Unfit(left: Conn)

  datatype Action =
    | Spawn(task: Task)
    | Acquire(t: TaskId)
    | Pop(t: TaskId)
    | InitDone(t: TaskId, ok: bool)
    | CheckDone(t: TaskId, verdict: Verdict)
    | ExchangeDone(t: TaskId, outcome: Outcome)
    | Test(t: TaskId)
    | Push(t: TaskId)
    | DeallocDone(t: TaskId)
    | Leave(t: TaskId)
    | ClosePermits(t: TaskId)
    | TakeLock(t: TaskId)
    | ClearNext(t: TaskId)
    | Cancel(t: TaskId, left: Conn)

  predicate At(s: State, t: TaskId) {
    t < |s.tasks| && |s.conns| == |s.place|
    && (HeldConn(s.tasks[t]).Some? ==> HeldConn(s.tasks[t]).value < |s.conns|)
  }

  predicate Enabled(s: State, a: Action) {
    match a
    case Spawn(task) =>
      task == Waiting(FirstTry) || task == Waiting(Checkout) || task == Closing || task == AwaitingLock
    case Acquire(t) => At(s, t) && s.tasks[t].Waiting? && (s.closed || s.permits > 0)
    case Pop(t) => At(s, t) && s.tasks[t].Popping? && s.lock.None?
                   && (s.idle != [] ==> s.idle[0] < |s.place|)
    case InitDone(t, ok) => At(s, t) && s.tasks[t].Initializing?
    case CheckDone(t, verdict) =>
      && At(s, t) && s.tasks[t].Checking?
      && (verdict.Ready? ==> Answers(s.conns[s.tasks[t].conn], verdict.answer)
                             && ReplyTo(s.conns[s.tasks[t].conn], verdict.answer).Response?)
    case ExchangeDone(t, outcome) =>
      && At(s, t) && s.tasks[t].Exchanging?
      && (outcome.Completed? || outcome.Refused? ==> Answers(s.conns[s.tasks[t].conn], outcome.answer))
      && (outcome.Completed? ==> ReplyTo(s.conns[s.tasks[t].conn], outcome.answer).Response?)
    case Test(t) => At(s, t) && s.tasks[t].Testing?
    case Push(t) => At(s, t) && s.tasks[t].Pushing? && s.lock.None?
    case DeallocDone(t) =>
      At(s, t) && (s.tasks[t].Rejecting? || s.tasks[t].Deallocating? || s.tasks[t].ClearingOne?)
    case Leave(t) => At(s, t) && s.tasks[t].Leaving?
    case ClosePermits(t) => At(s, t) && s.tasks[t].Closing?
    case TakeLock(t) => At(s, t) && s.tasks[t].AwaitingLock? && s.lock.None?
    case ClearNext(t) => At(s, t) && s.tasks[t].Clearing?
                         && (s.idle != [] ==> s.idle[|s.idle| - 1] < |s.place|)
    case Cancel(t, left) => At(s, t) && !s.tasks[t].Finished?
  }

  function Goto(s: State, t: TaskId, task: Task): State
    requires t < |s.tasks|
  {
    s.(tasks := s.tasks[t := task])
  }

  /** The task ends; its permit, if it has one, goes back to the semaphore. */
  function Finish(s: State, t: TaskId): State
    requires t < |s.tasks|
  {
    Goto(s, t, Finished).(permits := if HasPermit(s.tasks[t]) then s.permits + 1 else s.permits)
  }

  function Move(s: State, c: ConnId, p: Place): State
    requires c < |s.place|
  {
    s.(place := s.place[c := p])
  }

  function Use(s: State, c: ConnId, conn: Conn): State
    requires c < |s.conns|
  {
    s.(conns := s.conns[c := conn])
  }

  /** The task lets go of whatever connection it holds, in the state that its last use left. */
  function DropHeld(s: State, t: TaskId, left: Conn): State
    requires At(s, t)
  {
    match HeldConn(s.tasks[t])
    case None => s
    case Some(c) => Use(Move(s, c, Destroyed), c, left)
  }

  /** A checked or fresh connection is used by a pooled call, and handed out by `get_client`. */
  function Guarded(s: State, t: TaskId, mode: Mode, c: ConnId): State
    requires t < |s.tasks| && c < |s.place|
  {
    if mode.Checkout? then Move(Finish(s, t), c, HandedOut)
    else Goto(s, t, Exchanging(mode, c))
  }

  function Acquired(s: State, t: TaskId): State
    requires At(s, t) && s.tasks[t].Waiting? && s.permits > 0
  {
    Goto(s, t, Popping(s.tasks[t].mode)).(permits := s.permits - 1)
  }

  /** The first idle connection goes to the task: unchecked in a first attempt. */
  function Popped(s: State, t: TaskId): State
    requires At(s, t) && s.tasks[t].Popping? && s.idle != [] && s.idle[0] < |s.place|
  {
    var mode, c := s.tasks[t].mode, s.idle[0];
    Move(Goto(s, t, if mode.FirstTry? then Exchanging(mode, c) else Checking(mode, c)), c, HeldBy(t))
    .(idle := s.idle[1..])
  }

  function Opened(s: State, t: TaskId): State
    requires At(s, t) && s.tasks[t].Initializing? && |s.conns| == |s.place|
  {
    Guarded(s.(conns := s.conns + [NewConn], place := s.place + [HeldBy(t)]), t, s.tasks[t].mode, |s.place|)
  }

  function Checked(s: State, t: TaskId, verdict: Verdict): State
    requires At(s, t) && s.tasks[t].Checking?
    requires verdict.Ready? ==> Answers(s.conns[s.tasks[t].conn], verdict.answer)
  {
    var Checking(mode, c) := s.tasks[t];
    match verdict
    case Ready(answer) => Guarded(Use(s, c, AfterReply(s.conns[c], answer)), t, mode, c)
    case Unfit(left) => Use(Goto(s, t, Rejecting(mode, c)), c, left)
  }

  /** Errors that leave the stream in doubt drop the connection; a first attempt is then retried. */
  function Exchanged(s: State, t: TaskId, outcome: Outcome): State
    requires At(s, t) && s.tasks[t].Exchanging?
    requires outcome.Completed? || outcome.Refused? ==> Answers(s.conns[s.tasks[t].conn], outcome.answer)
  {
    var Exchanging(mode, c) := s.tasks[t];
    match outcome
    case Broken(left) =>
      var dropped := Finish(DropHeld(s, t, left), t);
      if mode.FirstTry? then Goto(dropped, t, Waiting(Retry)) else dropped
    case PoolClosedKind(left) => Finish(DropHeld(s, t, left), t)
    case _ => Use(Goto(s, t, Testing(c)), c, AfterReply(s.conns[c], outcome.answer))
  }

  function Pushed(s: State, t: TaskId): State
    requires At(s, t) && s.tasks[t].Pushing?
  {
    var c := s.tasks[t].conn;
    Move(Goto(s, t, Leaving), c, Idle).(idle := s.idle + [c])
  }

  function Deallocated(s: State, t: TaskId): State
    requires At(s, t) && (s.tasks[t].Rejecting? || s.tasks[t].Deallocating? || s.tasks[t].ClearingOne?)
  {
    Move(Goto(s, t, match s.tasks[t]
                    case Rejecting(mode, _) => Popping(mode)
                    case Deallocating(_) => Leaving
                    case ClearingOne(_) => Clearing), s.tasks[t].conn, Destroyed)
  }

  function PermitsClosed(s: State, t: TaskId): State
    requires At(s, t)
  {
    Goto(s, t, AwaitingLock).(
      closed := true,
      late := if s.closed then s.late
              else set i | 0 <= i < |s.tasks| && s.tasks[i].Pushing? :: s.tasks[i].conn)
  }

  function ClearedOne(s: State, t: TaskId): State
    requires At(s, t) && s.idle != [] && s.idle[|s.idle| - 1] < |s.place|
  {
    var last := |s.idle| - 1;
    Move(Goto(s, t, ClearingOne(s.idle[last])), s.idle[last], HeldBy(t)).(idle := s.idle[..last])
  }

  function ClearDone(s: State, t: TaskId): State
    requires At(s, t)
  {
    Finish(s, t).(lock := None, cleared := s.cleared || s.closed)
  }

  function Cancelled(s: State, t: TaskId, left: Conn): State
    requires At(s, t)
  {
    Finish(DropHeld(s, t, left), t).(lock := if HasLock(s.tasks[t]) then None else s.lock)
  }

  function Next(s: State, a: Action): State
    requires Enabled(s, a)
  {
    match a
    case Spawn(task) => s.(tasks := s.tasks + [task])
    case Acquire(t) => if s.closed then Finish(s, t) else Acquired(s, t)
    case Pop(t) => if s.idle == [] then Goto(s, t, Initializing(s.tasks[t].mode)) else Popped(s, t)
    case InitDone(t, ok) => if ok then Opened(s, t) else Finish(s, t)
    case CheckDone(t, verdict) => Checked(s, t, verdict)
    case ExchangeDone(t, outcome) => Exchanged(s, t, outcome)
    case Test(t) => Goto(s, t, if s.closed then Deallocating(s.tasks[t].conn) else Pushing(s.tasks[t].conn))
    case Push(t) => Pushed(s, t)
    case DeallocDone(t) => Deallocated(s, t)
    case Leave(t) => Finish(s, t)
    case ClosePermits(t) => PermitsClosed(s, t)
    case TakeLock(t) => Goto(s, t, Clearing).(lock := Some(t))
    case ClearNext(t) => if s.idle == [] then ClearDone(s, t) else ClearedOne(s, t)
    case Cancel(t, left) => Cancelled(s, t, left)
  }
}
