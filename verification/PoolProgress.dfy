/** No reachable state of the pool is stuck, and every call comes to an end. */
module PoolProgress {
  import opened Wrappers
  import opened Pool
  import opened PoolInvariants
  import opened PoolRuns

  // ---------- Attempts ----------

  /** How many requests the task may still end. */
  function AttemptsLeft(task: Task): nat {
    match task
    case Waiting(mode) => if mode.FirstTry? then 2 else if mode.Retry? then 1 else 0
    case Popping(mode) => if mode.FirstTry? then 2 else if mode.Retry? then 1 else 0
    case Initializing(mode) => if mode.FirstTry? then 2 else if mode.Retry? then 1 else 0
    case Checking(mode, _) => if mode.Checkout? then 0 else 1
    case Rejecting(mode, _) => if mode.Checkout? then 0 else 1
    case Exchanging(mode, _) => if mode.FirstTry? then 2 else 1
    case _ => 0
  }

  function Attempts(run: seq<Action>, t: TaskId): nat {
    if run == [] then 0
    else (if run[0].ExchangeDone? && run[0].t == t then 1 else 0) + Attempts(run[1..], t)
  }

  /** A first attempt is never checked. */
  predicate ModesFit(s: State) {
    forall t | 0 <= t < |s.tasks| :: ModeFits(s.tasks[t])
  }

  predicate ModeFits(task: Task) {
    (task.Checking? || task.Rejecting? ==> !task.mode.FirstTry?) && (task.Exchanging? ==> !task.mode.Checkout?)
  }

  // ---------- Rank ----------

  /** How many steps the task may still take, roughly; a pushed connection pays for the checks that
      it may cost another task. */
  function Rank(task: Task): nat {
    match task
    case Waiting(mode) => (match mode case FirstTry => 16 case Retry => 12 case Checkout => 6)
    case Popping(mode) => (match mode case FirstTry => 15 case Retry => 9 case Checkout => 3)
    case Initializing(mode) => (match mode case FirstTry => 14 case Retry => 8 case Checkout => 2)
    case Checking(mode, _) => if mode.Checkout? then 5 else 11
    case Rejecting(mode, _) => if mode.Checkout? then 4 else 10
    case Exchanging(mode, _) => if mode.FirstTry? then 13 else 7
    case Testing(_) => 6
    case Pushing(_) => 5
    case Deallocating(_) => 2
    case Leaving => 1
    case Closing => 3
    case AwaitingLock => 2
    case ClearingOne(_) => 2
    case Clearing => 1
    case Finished => 0
  }

  function TotalRank(s: State): nat {
    Sum(s.tasks, Rank) + 3 * |s.idle|
  }

  predicate Advances(s: State, a: Action, n: State)
    requires !a.Spawn?
  {
    && a.t < |s.tasks| == |n.tasks|
    && ModeFits(n.tasks[a.t])
    && AttemptsLeft(n.tasks[a.t]) + (if a.ExchangeDone? then 1 else 0) <= AttemptsLeft(s.tasks[a.t])
    && Rank(n.tasks[a.t]) + 3 * |n.idle| < Rank(s.tasks[a.t]) + 3 * |s.idle|
  }

  lemma PermitAdvances(s: State, a: Action)
    requires Enabled(s, a) && (a.Acquire? || a.InitDone?) && ModeFits(s.tasks[a.t])
    ensures Advances(s, a, Next(s, a))
  {
  }

  lemma PopAdvances(s: State, a: Action)
    requires Enabled(s, a) && a.Pop? && ModeFits(s.tasks[a.t])
    ensures Advances(s, a, Next(s, a))
  {
  }

  lemma ReadyAdvances(s: State, a: Action)
    requires Enabled(s, a) && a.CheckDone? && a.verdict.Ready? && ModeFits(s.tasks[a.t])
    ensures Advances(s, a, Next(s, a))
  {
    var Checking(mode, c) := s.tasks[a.t];
    assert Next(s, a).tasks[a.t] == if mode.Checkout? then Finished else Exchanging(mode, c);
  }

  lemma UnfitAdvances(s: State, a: Action)
    requires Enabled(s, a) && a.CheckDone? && a.verdict.Unfit? && ModeFits(s.tasks[a.t])
    ensures Advances(s, a, Next(s, a))
  {
  }

  lemma ExchangeAdvances(s: State, a: Action)
    requires Enabled(s, a) && a.ExchangeDone? && ModeFits(s.tasks[a.t])
    ensures Advances(s, a, Next(s, a))
  {
  }

  lemma ReleaseAdvances(s: State, a: Action)
    requires Enabled(s, a) && (a.Test? || a.Push? || a.DeallocDone? || a.Leave?) && ModeFits(s.tasks[a.t])
    ensures Advances(s, a, Next(s, a))
  {
  }

  lemma CloseAdvances(s: State, a: Action)
    requires Enabled(s, a) && (a.ClosePermits? || a.TakeLock? || a.ClearNext?)
    ensures Advances(s, a, Next(s, a))
  {
  }

  lemma CancelAdvances(s: State, a: Action)
    requires Enabled(s, a) && a.Cancel?
    ensures Advances(s, a, Next(s, a))
  {
  }

  lemma TaskAdvances(s: State, a: Action)
    requires Enabled(s, a) && !a.Spawn? && ModeFits(s.tasks[a.t])
    ensures Advances(s, a, Next(s, a))
  {
    match a {
      case Acquire(_) => PermitAdvances(s, a);
      case Pop(_) => PopAdvances(s, a);
      case InitDone(_, _) => PermitAdvances(s, a);
      case CheckDone(_, Ready(_)) => ReadyAdvances(s, a);
      case CheckDone(_, Unfit(_)) => UnfitAdvances(s, a);
      case ExchangeDone(_, _) => ExchangeAdvances(s, a);
      case ClosePermits(_) => CloseAdvances(s, a);
      case TakeLock(_) => CloseAdvances(s, a);
      case ClearNext(_) => CloseAdvances(s, a);
      case Cancel(_, _) => CancelAdvances(s, a);
      case _ => ReleaseAdvances(s, a);
    }
  }

  lemma AdvanceKeepsModes(s: State, a: Action, n: State)
    requires !a.Spawn? && Accounts(s, n, a.t) && Advances(s, a, n) && ModesFit(s)
    ensures ModesFit(n)
  {
  }

  lemma StepAdvances(s: State, a: Action)
    requires Enabled(s, a) && !a.Spawn? && ModesFit(s)
    ensures Advances(s, a, Next(s, a)) && ModesFit(Next(s, a)) && TotalRank(Next(s, a)) < TotalRank(s)
  {
    assert ModeFits(s.tasks[a.t]);
    TaskAdvances(s, a);
    SumStep(s, a, Rank);
    AdvanceKeepsModes(s, a, Next(s, a));
  }

  lemma {:induction false} RunFitsModes(s: State, run: seq<Action>)
    requires ModesFit(s) && CanRun(s, run)
    ensures ModesFit(After(s, run))
    decreases |run|
  {
    if run != [] {
      if !run[0].Spawn? {
        StepAdvances(s, run[0]);
      }
      RunFitsModes(Next(s, run[0]), run[1..]);
    }
  }

  // ---------- Main results ----------

  /** A pooled call makes at most two attempts, a checkout none. */
  lemma {:induction false} AtMostTwoAttempts(s: State, run: seq<Action>, t: TaskId)
    requires ModesFit(s) && CanRun(s, run)
    ensures Attempts(run, t) <= if t < |s.tasks| then AttemptsLeft(s.tasks[t]) else 2
    decreases |run|
  {
    if run != [] {
      var n := Next(s, run[0]);
      if !run[0].Spawn? {
        StepAdvances(s, run[0]);
        SumStep(s, run[0], Rank);
      }
      AtMostTwoAttempts(n, run[1..], t);
    }
  }

  /** Without new calls, every run comes to an end. */
  lemma {:induction false} RunsAreFinite(s: State, run: seq<Action>)
    requires ModesFit(s) && CanRun(s, run) && forall i | 0 <= i < |run| :: !run[i].Spawn?
    ensures |run| <= TotalRank(s)
    decreases |run|
  {
    if run != [] {
      StepAdvances(s, run[0]);
      RunsAreFinite(Next(s, run[0]), run[1..]);
    }
  }

  /** The step that a task takes if it need not wait. */
  function Step(task: Task, t: TaskId): Action
    requires !task.Finished?
  {
    match task
    case Waiting(_) => Acquire(t)
    case Popping(_) => Pop(t)
    case Initializing(_) => InitDone(t, false)
    case Checking(_, _) => CheckDone(t, Unfit(NewConn))
    case Exchanging(_, _) => ExchangeDone(t, Broken(NewConn))
    case Testing(_) => Test(t)
    case Pushing(_) => Push(t)
    case Leaving => Leave(t)
    case Closing => ClosePermits(t)
    case AwaitingLock => TakeLock(t)
    case Clearing => ClearNext(t)
    case _ => DeallocDone(t)
  }

  /** In a reachable state, as long as some task is unfinished, a task other than a cancelled one
      can go on. */
  lemma NotStuck(s: State, t: TaskId) returns (a: Action)
    requires Inv(s) && s.limit > 0 && t < |s.tasks| && !s.tasks[t].Finished?
    ensures Enabled(s, a) && !a.Spawn? && !a.Cancel?
  {
    var u := t;
    if s.tasks[u].Waiting? && !s.closed && s.permits == 0 {
      u := Contributor(s.tasks, Permit);
    }
    if (s.tasks[u].Popping? || s.tasks[u].Pushing? || s.tasks[u].AwaitingLock?) && s.lock.Some? {
      u := s.lock.value;
    }
    a := Step(s.tasks[u], u);
    assert HeldConn(s.tasks[u]).Some? ==> HolderIsKnown(s, u);
  }

  predicate AllFinished(s: State) {
    forall t | 0 <= t < |s.tasks| :: s.tasks[t].Finished?
  }

  /** With all tasks finished, all permits are back in the semaphore. */
  lemma FinishedGiveBack(s: State)
    requires PermitsConserved(s) && AllFinished(s)
    ensures s.permits == s.limit
  {
    if Sum(s.tasks, Permit) > 0 {
      var t := Contributor(s.tasks, Permit);
    }
  }

  /** Nothing can go on but new calls and cancellations. */
  ghost predicate IsQuiet(s: State) {
    forall a :: Enabled(s, a) ==> a.Spawn? || a.Cancel?
  }

  lemma UnfinishedIsNotQuiet(s: State, t: TaskId)
    requires Inv(s) && s.limit > 0 && t < |s.tasks|
    ensures !s.tasks[t].Finished? ==> !IsQuiet(s)
  {
    if !s.tasks[t].Finished? {
      var a := NotStuck(s, t);
    }
  }

  /** In every run from the initial state that has come to rest, all tasks are finished and all
      permits are back. */
  lemma QuietIsFinished(limit: nat, run: seq<Action>)
    requires limit > 0 && CanRun(Initial(limit), run) && IsQuiet(After(Initial(limit), run))
    ensures var s := After(Initial(limit), run); AllFinished(s) && s.permits == limit
  {
    ReachableIsSafe(limit, run);
    var s := After(Initial(limit), run);
    forall t | 0 <= t < |s.tasks| ensures s.tasks[t].Finished? {
      UnfinishedIsNotQuiet(s, t);
    }
    FinishedGiveBack(s);
  }

  /** From every reachable state all calls can run to their end, without a cancellation. */
  lemma {:induction false} AllFinish(s: State) returns (run: seq<Action>)
    requires Inv(s) && ModesFit(s) && s.limit > 0
    ensures CanRun(s, run) && forall i | 0 <= i < |run| :: !run[i].Spawn? && !run[i].Cancel?
    ensures AllFinished(After(s, run)) && After(s, run).permits == s.limit
    decreases TotalRank(s), 1
  {
    if t :| 0 <= t < |s.tasks| && !s.tasks[t].Finished? {
      run := FinishFrom(s, t);
    } else {
      run := [];
      FinishedGiveBack(s);
    }
  }

  lemma {:induction false} FinishFrom(s: State, t: TaskId) returns (run: seq<Action>)
    requires Inv(s) && ModesFit(s) && s.limit > 0 && t < |s.tasks| && !s.tasks[t].Finished?
    ensures CanRun(s, run) && forall i | 0 <= i < |run| :: !run[i].Spawn? && !run[i].Cancel?
    ensures AllFinished(After(s, run)) && After(s, run).permits == s.limit
    decreases TotalRank(s), 0
  {
    var a := NotStuck(s, t);
    InvStep(s, a);
    StepAdvances(s, a);
    LimitStays(s, a);
    var more := AllFinish(Next(s, a));
    run := [a] + more;
    assert run[1..] == more;
  }

  lemma LimitStays(s: State, a: Action)
    requires Enabled(s, a)
    ensures Next(s, a).limit == s.limit
  {
    SumStep(s, a, Permit);
  }
}
