/** The pool object does what the transition system does when one task runs without interruption. */
module PoolObject {
  import opened Wrappers
  import opened Pool
  import opened PoolInvariants
  import opened PoolRuns
  import ItemPools

  /** The pool object in a state of the transition system. */
  function View(s: State): ItemPools.Contents {
    ItemPools.Contents(s.idle, s.permits, s.closed)
  }

  /** A run of one task, which leaves the lock free. */
  ghost predicate RunsAlone(s: State, run: seq<Action>, t: TaskId) {
    && CanRun(s, run) && After(s, run).lock == None
    && forall i | 0 <= i < |run| :: !run[i].Spawn? && run[i].t == t
  }

  lemma NoSteps(s: State, t: TaskId)
    requires s.lock == None
    ensures RunsAlone(s, [], t) && After(s, []) == s
  {
  }

  lemma OneStepMore(s: State, a: Action, more: seq<Action>, t: TaskId)
    requires Enabled(s, a) && !a.Spawn? && a.t == t && RunsAlone(Next(s, a), more, t)
    ensures RunsAlone(s, [a] + more, t) && After(s, [a] + more) == After(Next(s, a), more)
  {
    Prepend(s, a, more);
  }

  // ---------- get ----------

  lemma AcquireStep(s: State, t: TaskId)
    requires Inv(s) && s.lock == None && t < |s.tasks| && s.tasks[t].Waiting? && (s.closed || s.permits > 0)
    ensures Enabled(s, Acquire(t)) && Inv(Next(s, Acquire(t)))
    ensures s.closed ==> Next(s, Acquire(t)) == s.(tasks := s.tasks[t := Finished])
    ensures !s.closed ==>
              Next(s, Acquire(t)) == s.(tasks := s.tasks[t := Popping(s.tasks[t].mode)], permits := s.permits - 1)
  {
    InvStep(s, Acquire(t));
  }

  /** A task that has got a connection: a pooled call goes on with it; `get_client` hands it out and
      gives the permit back. */
  function Served(mode: Mode, c: ConnId): Task {
    if mode.Checkout? then Finished else Exchanging(mode, c)
  }

  function PermitsServed(mode: Mode, permits: nat): nat {
    if mode.Checkout? then permits + 1 else permits
  }

  predicate IsServed(n: State, t: TaskId, mode: Mode, c: ConnId) {
    c < |n.place| && n.place[c] == if mode.Checkout? then HandedOut else HeldBy(t)
  }

  /** Opening a connection when the deque is empty. */
  lemma OpenAlone(s: State, t: TaskId, ok: bool) returns (run: seq<Action>)
    requires Inv(s) && s.lock == None && t < |s.tasks| && s.tasks[t].Popping?
    requires s.idle == []
    ensures RunsAlone(s, run, t)
    ensures var n, mode := After(s, run), s.tasks[t].mode;
            && View(n) == ItemPools.Contents([], if ok then PermitsServed(mode, s.permits) else s.permits + 1, s.closed)
            && n.tasks == s.tasks[t := if ok then Served(mode, |s.conns|) else Finished]
            && (ok ==> IsServed(n, t, mode, |s.conns|))
  {
    var popped := Next(s, Pop(t));
    assert popped == s.(tasks := s.tasks[t := Initializing(s.tasks[t].mode)]);
    var end := Next(popped, InitDone(t, ok));
    var last := if ok then Served(s.tasks[t].mode, |s.conns|) else Finished;
    assert end.tasks == s.tasks[t := last];
    NoSteps(end, t);
    OneStepMore(popped, InitDone(t, ok), [], t);
    OneStepMore(s, Pop(t), [InitDone(t, ok)] + [], t);
    run := [Pop(t)] + ([InitDone(t, ok)] + []);
  }

  /** `get`. */
  lemma GetAgrees(s: State, t: TaskId, created: Option<ConnId>) returns (run: seq<Action>)
    requires Inv(s) && s.lock == None && t < |s.tasks| && s.tasks[t] == Waiting(FirstTry)
    requires s.closed || s.permits > 0
    requires created.Some? ==> created.value == |s.conns|
    ensures RunsAlone(s, run, t) && View(After(s, run)) == ItemPools.AfterGet(View(s), created)
    ensures After(s, run).tasks == s.tasks[t := match ItemPools.GetResult(View(s), created)
                                                case Ok(c) => Exchanging(FirstTry, c)
                                                case Err(_) => Finished]
  {
    AcquireStep(s, t);
    var n := Next(s, Acquire(t));
    var more := [];
    if s.closed {
      NoSteps(n, t);
    } else if s.idle == [] {
      more := OpenAlone(n, t, created.Some?);
    } else {
      more := PopAlone(n, t);
    }
    OneStepMore(s, Acquire(t), more, t);
    run := [Acquire(t)] + more;
  }

  lemma PopAlone(s: State, t: TaskId) returns (run: seq<Action>)
    requires Inv(s) && s.lock == None && t < |s.tasks| && s.tasks[t] == Popping(FirstTry) && s.idle != []
    ensures RunsAlone(s, run, t)
    ensures var n := After(s, run);
            && View(n) == View(s).(items := s.idle[1..])
            && n.tasks == s.tasks[t := Exchanging(FirstTry, s.idle[0])]
  {
    NoSteps(Next(s, Pop(t)), t);
    OneStepMore(s, Pop(t), [], t);
    run := [Pop(t)] + [];
  }

  // ---------- get_checked ----------

  /** What the check of a fit connection is answered with. */
  predicate Fit(s: State, c: ConnId, answers: ConnId -> Answer) {
    c < |s.conns| && Answers(s.conns[c], answers(c)) && ReplyTo(s.conns[c], answers(c)).Response?
  }

  ghost predicate FitAnswers(s: State, fit: ConnId -> bool, answers: ConnId -> Answer) {
    forall k | 0 <= k < |s.idle| && fit(s.idle[k]) :: Fit(s, s.idle[k], answers)
  }

  /** Popping an idle connection to check it. */
  lemma PopToCheck(s: State, t: TaskId, mode: Mode)
    requires Inv(s) && s.lock == None && t < |s.tasks| && s.tasks[t] == Popping(mode) && s.idle != []
    requires !mode.FirstTry?
    ensures Enabled(s, Pop(t)) && Inv(Next(s, Pop(t)))
    ensures var n := Next(s, Pop(t));
            && View(n) == View(s).(items := s.idle[1..]) && n.conns == s.conns && n.lock == None
            && n.tasks == s.tasks[t := Checking(mode, s.idle[0])]
  {
    InvStep(s, Pop(t));
  }

  /** A connection that fails its check is destroyed, and the task is back where it was. */
  lemma RejectAlone(s: State, t: TaskId, mode: Mode, c: ConnId) returns (first: Action, second: Action)
    requires Inv(s) && s.lock == None && t < |s.tasks| && s.tasks[t] == Checking(mode, c)
    ensures first.CheckDone? && second.DeallocDone? && first.t == t == second.t
    ensures Enabled(s, first) && Enabled(Next(s, first), second)
    ensures var n := Next(Next(s, first), second);
            && Inv(n) && View(n) == View(s) && n.lock == None && n.tasks == s.tasks[t := Popping(mode)]
            && IsDestroyed(n, c) && |n.conns| == |s.conns|
            && forall d | 0 <= d < |s.conns| && d != c :: n.conns[d] == s.conns[d]
  {
    first, second := CheckDone(t, Unfit(NewConn)), DeallocDone(t);
    UnfitStep(s, t, mode, c);
    DestroyStep(Next(s, first), t, mode, c);
    assert s.tasks[t := Rejecting(mode, c)][t := Popping(mode)] == s.tasks[t := Popping(mode)];
  }

  lemma UnfitStep(s: State, t: TaskId, mode: Mode, c: ConnId)
    requires Inv(s) && s.lock == None && t < |s.tasks| && s.tasks[t] == Checking(mode, c)
    ensures c < |s.conns| && Enabled(s, CheckDone(t, Unfit(NewConn)))
    ensures var n := Next(s, CheckDone(t, Unfit(NewConn)));
            Inv(n) && n == s.(tasks := s.tasks[t := Rejecting(mode, c)], conns := s.conns[c := NewConn])
  {
    assert HolderIsKnown(s, t);
    InvStep(s, CheckDone(t, Unfit(NewConn)));
  }

  lemma DestroyStep(s: State, t: TaskId, mode: Mode, c: ConnId)
    requires Inv(s) && s.lock == None && t < |s.tasks| && s.tasks[t] == Rejecting(mode, c)
    ensures Enabled(s, DeallocDone(t))
    ensures var n := Next(s, DeallocDone(t));
            && Inv(n) && View(n) == View(s) && n.lock == None && n.tasks == s.tasks[t := Popping(mode)]
            && IsDestroyed(n, c) && n.conns == s.conns
  {
    assert HolderIsKnown(s, t);
    InvStep(s, DeallocDone(t));
  }

  /** A connection that passes is used. */
  lemma AcceptAlone(s: State, t: TaskId, mode: Mode, c: ConnId, answer: Answer) returns (run: seq<Action>)
    requires Inv(s) && s.lock == None && t < |s.tasks| && s.tasks[t] == Checking(mode, c)
    requires c < |s.conns| && Answers(s.conns[c], answer) && ReplyTo(s.conns[c], answer).Response?
    ensures RunsAlone(s, run, t)
    ensures var n := After(s, run);
            && View(n) == View(s).(permits := PermitsServed(mode, s.permits))
            && n.tasks == s.tasks[t := Served(mode, c)] && IsServed(n, t, mode, c)
  {
    assert HolderIsKnown(s, t);
    var a := CheckDone(t, Ready(answer));
    NoSteps(Next(s, a), t);
    OneStepMore(s, a, [], t);
    run := [a] + [];
  }

  /** Where the loop of `get_checked` ends that begins in `s`. */
  ghost predicate LoopEnd(s: State, n: State, t: TaskId, mode: Mode, fit: ConnId -> bool, created: Option<ConnId>)
    requires t < |s.tasks|
  {
    var k := ItemPools.FirstFit(s.idle, fit, 0);
    && (if k < |s.idle| then
          && View(n) == View(s).(items := s.idle[k + 1..], permits := PermitsServed(mode, s.permits))
          && n.tasks == s.tasks[t := Served(mode, s.idle[k])] && IsServed(n, t, mode, s.idle[k])
        else
          && View(n) == ItemPools.Contents(
               [], if created.Some? then PermitsServed(mode, s.permits) else s.permits + 1, s.closed)
          && n.tasks == s.tasks[t := if created.Some? then Served(mode, |s.conns|) else Finished]
          && (created.Some? ==> IsServed(n, t, mode, |s.conns|)))
    && forall j | 0 <= j < k :: IsDestroyed(n, s.idle[j])
  }

  /** The loop of `get_checked`, from the first pop on. */
  lemma {:induction false} CheckLoopAgrees(s: State, t: TaskId, mode: Mode, fit: ConnId -> bool,
                                           answers: ConnId -> Answer, created: Option<ConnId>)
    returns (run: seq<Action>)
    requires Inv(s) && s.lock == None && t < |s.tasks| && s.tasks[t] == Popping(mode) && !mode.FirstTry?
    requires FitAnswers(s, fit, answers) && (created.Some? ==> created.value == |s.conns|)
    ensures RunsAlone(s, run, t) && LoopEnd(s, After(s, run), t, mode, fit, created)
    decreases |s.idle|, 0
  {
    if s.idle == [] {
      run := OpenAlone(s, t, created.Some?);
    } else {
      PopToCheck(s, t, mode);
      var popped, c := Next(s, Pop(t)), s.idle[0];
      var more;
      if fit(c) {
        assert Fit(s, c, answers);
        more := AcceptAlone(popped, t, mode, c, answers(c));
        FirstIsFit(s, popped, After(popped, more), t, mode, fit, created);
      } else {
        more := RejectThenLoop(s, popped, t, mode, fit, answers, created);
      }
      OneStepMore(s, Pop(t), more, t);
      run := [Pop(t)] + more;
    }
  }

  lemma FirstIsFit(s: State, popped: State, n: State, t: TaskId, mode: Mode, fit: ConnId -> bool,
                   created: Option<ConnId>)
    requires t < |s.tasks| && s.idle != [] && fit(s.idle[0])
    requires View(n) == View(s).(items := s.idle[1..], permits := PermitsServed(mode, s.permits))
    requires popped.tasks == s.tasks[t := Checking(mode, s.idle[0])]
    requires n.tasks == popped.tasks[t := Served(mode, s.idle[0])] && IsServed(n, t, mode, s.idle[0])
    ensures LoopEnd(s, n, t, mode, fit, created)
  {
  }

  lemma {:induction false} RejectThenLoop(s: State, popped: State, t: TaskId, mode: Mode, fit: ConnId -> bool,
                                          answers: ConnId -> Answer, created: Option<ConnId>)
    returns (run: seq<Action>)
    requires Inv(s) && s.lock == None && t < |s.tasks| && s.tasks[t] == Popping(mode) && !mode.FirstTry?
    requires FitAnswers(s, fit, answers) && (created.Some? ==> created.value == |s.conns|)
    requires s.idle != [] && !fit(s.idle[0])
    requires Inv(popped) && View(popped) == View(s).(items := s.idle[1..])
    requires popped.conns == s.conns && popped.lock == None
    requires popped.tasks == s.tasks[t := Checking(mode, s.idle[0])]
    ensures RunsAlone(popped, run, t) && LoopEnd(s, After(popped, run), t, mode, fit, created)
    decreases |s.idle| - 1, 1
  {
    var first, second := RejectAlone(popped, t, mode, s.idle[0]);
    var again := Next(Next(popped, first), second);
    assert popped.tasks[t := Popping(mode)] == s.tasks;
    RestStillFits(s, again, fit, answers);
    var more := CheckLoopAgrees(again, t, mode, fit, answers, created);
    GoneForever(again, more, s.idle[0]);
    LoopEndOfRest(s, again, After(again, more), t, mode, fit, created);
    OneStepMore(Next(popped, first), second, more, t);
    OneStepMore(popped, first, [second] + more, t);
    run := [first] + ([second] + more);
  }

  lemma LoopEndOfRest(s: State, again: State, n: State, t: TaskId, mode: Mode, fit: ConnId -> bool,
                      created: Option<ConnId>)
    requires t < |s.tasks| && s.idle != [] && !fit(s.idle[0]) && IsDestroyed(n, s.idle[0])
    requires View(again) == View(s).(items := s.idle[1..]) && again.tasks == s.tasks && |again.conns| == |s.conns|
    requires LoopEnd(again, n, t, mode, fit, created)
    ensures LoopEnd(s, n, t, mode, fit, created)
  {
    FirstFitOfRest(s.idle, fit);
    var k := ItemPools.FirstFit(s.idle, fit, 0);
    forall j | 0 <= j < k ensures IsDestroyed(n, s.idle[j]) {
      assert j > 0 ==> s.idle[j] == again.idle[j - 1];
    }
  }

  lemma RestStillFits(s: State, again: State, fit: ConnId -> bool, answers: ConnId -> Answer)
    requires Located(s) && FitAnswers(s, fit, answers) && s.idle != [] && again.idle == s.idle[1..]
    requires |again.conns| == |s.conns|
    requires forall d | 0 <= d < |s.conns| && d != s.idle[0] :: again.conns[d] == s.conns[d]
    ensures FitAnswers(again, fit, answers)
  {
    forall k | 0 <= k < |again.idle| && fit(again.idle[k]) ensures Fit(again, again.idle[k], answers) {
      assert again.idle[k] == s.idle[k + 1];
      assert Fit(s, s.idle[k + 1], answers);
      assert s.idle[0] != s.idle[k + 1];
    }
  }

  lemma {:induction false} FirstFitShift(items: seq<ConnId>, fit: ConnId -> bool, i: nat)
    requires items != [] && i <= |items| - 1
    ensures ItemPools.FirstFit(items[1..], fit, i) + 1 == ItemPools.FirstFit(items, fit, i + 1)
    decreases |items| - i
  {
    if i < |items| - 1 {
      assert items[1..][i] == items[i + 1];
      if !fit(items[i + 1]) {
        FirstFitShift(items, fit, i + 1);
      }
    }
  }

  lemma FirstFitOfRest(items: seq<ConnId>, fit: ConnId -> bool)
    requires items != [] && !fit(items[0])
    ensures var k := ItemPools.FirstFit(items[1..], fit, 0);
            ItemPools.FirstFit(items, fit, 0) == k + 1
            && (k < |items| - 1 ==> items[1..][k] == items[k + 1] && items[1..][k + 1..] == items[k + 2..])
  {
    FirstFitShift(items, fit, 0);
  }

  lemma AcquiredFits(s: State, n: State, fit: ConnId -> bool, answers: ConnId -> Answer)
    requires FitAnswers(s, fit, answers) && n.idle == s.idle && n.conns == s.conns
    ensures FitAnswers(n, fit, answers)
  {
    forall k | 0 <= k < |n.idle| && fit(n.idle[k]) ensures Fit(n, n.idle[k], answers) {
      assert Fit(s, s.idle[k], answers);
    }
  }

  /** How `get_checked` ends: a pooled call holds the item and a permit; for `get_client` the item has
      left the pool and the permit is back. */
  ghost predicate CheckedEnd(s: State, n: State, t: TaskId, mode: Mode, fit: ConnId -> bool, created: Option<ConnId>)
    requires t < |s.tasks| && (s.closed || s.permits > 0)
  {
    var r, end := ItemPools.GetCheckedResult(View(s), fit, created), ItemPools.AfterGetChecked(View(s), fit, created);
    && (match r
        case Ok(c) =>
          && View(n) == end.(permits := PermitsServed(mode, end.permits))
          && n.tasks == s.tasks[t := Served(mode, c)] && IsServed(n, t, mode, c)
        case Err(_) => View(n) == end && n.tasks == s.tasks[t := Finished])
    && (!s.closed ==> forall j | 0 <= j < ItemPools.FirstFit(s.idle, fit, 0) :: IsDestroyed(n, s.idle[j]))
  }

  lemma LoopEndIsCheckedEnd(s: State, acquired: State, n: State, t: TaskId, mode: Mode, fit: ConnId -> bool,
                            created: Option<ConnId>)
    requires t < |s.tasks| && !s.closed && s.permits > 0 && (created.Some? ==> created.value == |s.conns|)
    requires View(acquired) == View(s).(permits := s.permits - 1) && |acquired.conns| == |s.conns|
    requires acquired.tasks == s.tasks[t := Popping(mode)] && LoopEnd(acquired, n, t, mode, fit, created)
    ensures CheckedEnd(s, n, t, mode, fit, created)
  {
    var end := match ItemPools.GetCheckedResult(View(s), fit, created)
               case Ok(c) => Served(mode, c)
               case Err(_) => Finished;
    assert acquired.tasks[t := end] == s.tasks[t := end];
  }

  /** `get_checked`, in a retry and in `get_client`; the items that it deallocates are destroyed. */
  lemma GetCheckedAgrees(s: State, t: TaskId, mode: Mode, fit: ConnId -> bool, answers: ConnId -> Answer,
                         created: Option<ConnId>) returns (run: seq<Action>)
    requires Inv(s) && s.lock == None && t < |s.tasks| && s.tasks[t] == Waiting(mode) && !mode.FirstTry?
    requires s.closed || s.permits > 0
    requires FitAnswers(s, fit, answers) && (created.Some? ==> created.value == |s.conns|)
    ensures RunsAlone(s, run, t) && CheckedEnd(s, After(s, run), t, mode, fit, created)
  {
    AcquireStep(s, t);
    var n := Next(s, Acquire(t));
    var more := [];
    if s.closed {
      NoSteps(n, t);
    } else {
      AcquiredFits(s, n, fit, answers);
      more := CheckLoopAgrees(n, t, mode, fit, answers, created);
      LoopEndIsCheckedEnd(s, n, After(n, more), t, mode, fit, created);
    }
    OneStepMore(s, Acquire(t), more, t);
    run := [Acquire(t)] + more;
  }

  // ---------- release, clear and close ----------

  lemma LeaveAlone(s: State, t: TaskId) returns (run: seq<Action>)
    requires s.lock == None && At(s, t) && s.tasks[t].Leaving?
    ensures RunsAlone(s, run, t)
    ensures After(s, run) == s.(tasks := s.tasks[t := Finished], permits := s.permits + 1)
  {
    NoSteps(Next(s, Leave(t)), t);
    OneStepMore(s, Leave(t), [], t);
    run := [Leave(t)] + [];
  }

  lemma PushAlone(s: State, t: TaskId, c: ConnId) returns (run: seq<Action>)
    requires s.lock == None && At(s, t) && s.tasks[t] == Pushing(c)
    ensures RunsAlone(s, run, t)
    ensures var n := After(s, run);
            && View(n) == ItemPools.Contents(s.idle + [c], s.permits + 1, s.closed)
            && n.tasks == s.tasks[t := Finished]
  {
    var pushed := Next(s, Push(t));
    assert pushed.tasks == s.tasks[t := Leaving] && View(pushed) == View(s).(items := s.idle + [c]);
    var more := LeaveAlone(pushed, t);
    OneStepMore(s, Push(t), more, t);
    run := [Push(t)] + more;
  }

  lemma DeallocateAlone(s: State, t: TaskId, c: ConnId) returns (run: seq<Action>)
    requires s.lock == None && At(s, t) && s.tasks[t] == Deallocating(c)
    ensures RunsAlone(s, run, t)
    ensures var n := After(s, run);
            && View(n) == ItemPools.Contents(s.idle, s.permits + 1, s.closed)
            && n.tasks == s.tasks[t := Finished] && IsDestroyed(n, c)
  {
    var gone := Next(s, DeallocDone(t));
    assert gone.tasks == s.tasks[t := Leaving] && View(gone) == View(s) && IsDestroyed(gone, c);
    var more := LeaveAlone(gone, t);
    OneStepMore(s, DeallocDone(t), more, t);
    run := [DeallocDone(t)] + more;
  }

  /** A release. */
  lemma ReleaseAgrees(s: State, t: TaskId, c: ConnId) returns (run: seq<Action>)
    requires Inv(s) && s.lock == None && t < |s.tasks| && s.tasks[t] == Testing(c)
    ensures RunsAlone(s, run, t) && View(After(s, run)) == ItemPools.AfterRelease(View(s), c)
    ensures After(s, run).tasks == s.tasks[t := Finished]
    ensures s.closed ==> IsDestroyed(After(s, run), c)
  {
    assert HolderIsKnown(s, t);
    var next := if s.closed then Deallocating(c) else Pushing(c);
    var tested := Next(s, Test(t));
    assert tested == s.(tasks := s.tasks[t := next]);
    var more;
    if s.closed {
      more := DeallocateAlone(tested, t, c);
    } else {
      more := PushAlone(tested, t, c);
    }
    assert s.tasks[t := next][t := Finished] == s.tasks[t := Finished];
    OneStepMore(s, Test(t), more, t);
    run := [Test(t)] + more;
  }

  /** `clear`; every idle item is destroyed. */
  lemma ClearAgrees(s: State, t: TaskId) returns (run: seq<Action>)
    requires Inv(s) && s.lock == None && t < |s.tasks| && s.tasks[t] == AwaitingLock
    ensures CanRun(s, run) && After(s, run).lock == None
    ensures View(After(s, run)) == View(s).(items := []) && After(s, run).tasks == s.tasks[t := Finished]
    ensures forall k | 0 <= k < |s.idle| :: IsDestroyed(After(s, run), s.idle[k])
  {
    var n := Next(s, TakeLock(t));
    InvStep(s, TakeLock(t));
    assert n == s.(tasks := s.tasks[t := Clearing], lock := Some(t));
    var more := FinishClear(n, t);
    assert n.tasks[t := Finished] == s.tasks[t := Finished];
    Prepend(s, TakeLock(t), more);
    run := [TakeLock(t)] + more;
  }

  /** `close`. */
  lemma CloseAgrees(s: State, t: TaskId) returns (run: seq<Action>)
    requires Inv(s) && s.lock == None && t < |s.tasks| && s.tasks[t] == Closing
    ensures CanRun(s, run) && After(s, run).lock == None
    ensures View(After(s, run)) == View(s).(items := [], closed := true)
    ensures After(s, run).tasks == s.tasks[t := Finished]
    ensures forall k | 0 <= k < |s.idle| :: IsDestroyed(After(s, run), s.idle[k])
  {
    var n := Next(s, ClosePermits(t));
    InvStep(s, ClosePermits(t));
    var more := ClearAgrees(n, t);
    assert s.tasks[t := AwaitingLock][t := Finished] == s.tasks[t := Finished];
    Prepend(s, ClosePermits(t), more);
    run := [ClosePermits(t)] + more;
  }
}
