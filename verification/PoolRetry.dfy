/** What happens to a pooled call after its first request: it is retried on another connection, or its
    connection goes back into the pool. */
module PoolRetry {
  import opened Wrappers
  import opened Framing
  import opened Pool
  import opened PoolInvariants
  import opened PoolRuns
  import opened PoolProgress
  import opened PoolObject
  import ItemPools

  // ---------- Attempts along a run ----------

  lemma {:induction false} AttemptsAreSpent(s: State, run: seq<Action>, t: TaskId)
    requires ModesFit(s) && CanRun(s, run) && t < |s.tasks|
    ensures t < |After(s, run).tasks|
    ensures Attempts(run, t) + AttemptsLeft(After(s, run).tasks[t]) <= AttemptsLeft(s.tasks[t])
    decreases |run|
  {
    if run != [] {
      if !run[0].Spawn? {
        StepAdvances(s, run[0]);
        SumStep(s, run[0], Rank);
      }
      AttemptsAreSpent(Next(s, run[0]), run[1..], t);
    }
  }

  lemma {:induction false} AttemptsAppend(run: seq<Action>, a: Action, t: TaskId)
    ensures Attempts(run + [a], t) == Attempts(run, t) + if a.ExchangeDone? && a.t == t then 1 else 0
    decreases |run|
  {
    if run != [] {
      AttemptsAppend(run[1..], a, t);
      assert (run + [a])[1..] == run[1..] + [a];
    }
  }

  /** Once the pool is closed, a task without a permit ends no request. */
  lemma {:induction false} NoAttemptAfterClose(s: State, run: seq<Action>, t: TaskId)
    requires s.closed && CanRun(s, run) && t < |s.tasks| && !HasPermit(s.tasks[t])
    ensures Attempts(run, t) == 0
    decreases |run|
  {
    if run != [] {
      ClosedStep(s, run[0]);
      NoAttemptAfterClose(Next(s, run[0]), run[1..], t);
    }
  }

  // ---------- What a second attempt uses ----------

  /** The step has just checked the connection for the task, or opened it. */
  predicate Verifies(s: State, a: Action, t: TaskId, d: ConnId) {
    || (a.CheckDone? && a.t == t && a.verdict.Ready? && t < |s.tasks| && s.tasks[t] == Checking(Retry, d))
    || (a == InitDone(t, true) && d == |s.conns|)
  }

  ghost predicate VerifiedAt(s: State, run: seq<Action>, i: int, t: TaskId, d: ConnId) {
    0 <= i < |run| && CanRun(s, run[..i]) && Verifies(After(s, run[..i]), run[i], t, d)
  }

  lemma SecondIsEntered(s: State, a: Action, t: TaskId, d: ConnId)
    requires Enabled(s, a) && t < |s.tasks| && s.tasks[t] != Exchanging(Retry, d)
    requires t < |Next(s, a).tasks| && Next(s, a).tasks[t] == Exchanging(Retry, d)
    ensures Verifies(s, a, t, d)
  {
    if !a.Spawn? {
      SumStep(s, a, Rank);
    }
  }

  /** In every run, a task comes to its second attempt on a connection that has passed a check or has
      just been opened. */
  lemma {:induction false} SecondIsVerified(s: State, run: seq<Action>, t: TaskId, d: ConnId) returns (i: int)
    requires CanRun(s, run) && t < |s.tasks| && s.tasks[t] != Exchanging(Retry, d)
    requires t < |After(s, run).tasks| && After(s, run).tasks[t] == Exchanging(Retry, d)
    ensures VerifiedAt(s, run, i, t, d)
    decreases |run|
  {
    var n := Next(s, run[0]);
    if !run[0].Spawn? {
      SumStep(s, run[0], Rank);
    }
    if n.tasks[t] == Exchanging(Retry, d) {
      SecondIsEntered(s, run[0], t, d);
      i := 0;
      assert run[..0] == [];
    } else {
      var j := SecondIsVerified(n, run[1..], t, d);
      VerifiedLater(s, run, j, t, d);
      i := j + 1;
    }
  }

  lemma VerifiedLater(s: State, run: seq<Action>, j: int, t: TaskId, d: ConnId)
    requires run != [] && Enabled(s, run[0]) && VerifiedAt(Next(s, run[0]), run[1..], j, t, d)
    ensures VerifiedAt(s, run, j + 1, t, d)
  {
    assert run[..j + 1] == [run[0]] + run[1..][..j];
    Prepend(s, run[0], run[1..][..j]);
  }

  /** In every run after a broken first attempt, a second one is made on another connection. */
  lemma SecondUsesAnother(s: State, t: TaskId, left: Conn, run: seq<Action>, d: ConnId)
    requires Inv(s) && t < |s.tasks| && s.tasks[t].Exchanging?
    requires Enabled(s, ExchangeDone(t, Broken(left))) && CanRun(Next(s, ExchangeDone(t, Broken(left))), run)
    requires var n := After(Next(s, ExchangeDone(t, Broken(left))), run);
             t < |n.tasks| && n.tasks[t] == Exchanging(Retry, d)
    ensures d != s.tasks[t].conn
  {
    var a := ExchangeDone(t, Broken(left));
    assert HolderIsKnown(s, t);
    InvStep(s, a);
    GoneForever(Next(s, a), run, s.tasks[t].conn);
    RunKeepsInv(Next(s, a), run);
    assert HolderIsKnown(After(Next(s, a), run), t);
  }

  // ---------- How a request ends ----------

  lemma ReplyStep(s: State, t: TaskId, c: ConnId, outcome: Outcome)
    requires Inv(s) && t < |s.tasks| && s.tasks[t].Exchanging? && s.tasks[t].conn == c
    requires Enabled(s, ExchangeDone(t, outcome)) && !Drops(outcome)
    ensures var n := Next(s, ExchangeDone(t, outcome));
            && Inv(n) && View(n) == View(s) && n.lock == s.lock && n.tasks == s.tasks[t := Testing(c)]
            && n.conns == s.conns[c := AfterReply(s.conns[c], outcome.answer)]
  {
    InvStep(s, ExchangeDone(t, outcome));
  }

  /** A request that was answered, with what was asked for or with a refusal, gives its connection and
      its permit back to the pool, or to the allocator once the pool is closed. */
  lemma AnsweredIsReturned(s: State, t: TaskId, c: ConnId, outcome: Outcome) returns (run: seq<Action>)
    requires Inv(s) && s.lock == None && t < |s.tasks| && s.tasks[t].Exchanging? && s.tasks[t].conn == c
    requires Enabled(s, ExchangeDone(t, outcome)) && !Drops(outcome)
    ensures RunsAlone(s, run, t) && run != [] && run[0] == ExchangeDone(t, outcome)
    ensures View(After(s, run)) == ItemPools.AfterRelease(View(s), c)
    ensures After(s, run).tasks == s.tasks[t := Finished]
    ensures s.closed ==> IsDestroyed(After(s, run), c)
  {
    var a := ExchangeDone(t, outcome);
    ReplyStep(s, t, c, outcome);
    var more := ReleaseAgrees(Next(s, a), t, c);
    assert s.tasks[t := Testing(c)][t := Finished] == s.tasks[t := Finished];
    OneStepMore(s, a, more, t);
    run := [a] + more;
  }

  /** A request that ends in doubt destroys its connection and gives its permit back at once; it is the
      end of the call unless it was a broken first attempt. */
  lemma DoubtfulIsDropped(s: State, t: TaskId, c: ConnId, outcome: Outcome)
    requires Inv(s) && t < |s.tasks| && s.tasks[t].Exchanging? && s.tasks[t].conn == c && Drops(outcome)
    ensures Enabled(s, ExchangeDone(t, outcome))
    ensures var n := Next(s, ExchangeDone(t, outcome));
            && View(n) == View(s).(permits := s.permits + 1) && IsDestroyed(n, c)
            && n.tasks == s.tasks[t := if outcome.Broken? && s.tasks[t].mode.FirstTry?
                                       then Waiting(Retry) else Finished]
  {
    assert HolderIsKnown(s, t);
  }

  // ---------- The retry ----------

  lemma BrokenStep(s: State, t: TaskId, c: ConnId, left: Conn)
    requires Inv(s) && t < |s.tasks| && s.tasks[t] == Exchanging(FirstTry, c)
    ensures Enabled(s, ExchangeDone(t, Broken(left))) && Inv(Next(s, ExchangeDone(t, Broken(left))))
    ensures var n := Next(s, ExchangeDone(t, Broken(left)));
            && View(n) == View(s).(permits := s.permits + 1) && n.lock == s.lock
            && n.tasks == s.tasks[t := Waiting(Retry)]
            && c < |s.conns| && n.conns == s.conns[c := left] && IsDestroyed(n, c)
  {
    assert HolderIsKnown(s, t);
    InvStep(s, ExchangeDone(t, Broken(left)));
  }

  lemma IdleStillFits(s: State, n: State, t: TaskId, c: ConnId, fit: ConnId -> bool, answers: ConnId -> Answer)
    requires Located(s) && FitAnswers(s, fit, answers) && t < |s.tasks| && HeldConn(s.tasks[t]) == Some(c)
    requires n.idle == s.idle && |n.conns| == |s.conns|
    requires forall d | 0 <= d < |s.conns| && d != c :: n.conns[d] == s.conns[d]
    ensures FitAnswers(n, fit, answers)
  {
    assert HolderIsKnown(s, t);
    forall k | 0 <= k < |n.idle| && fit(n.idle[k]) ensures Fit(n, n.idle[k], answers) {
      assert Fit(s, s.idle[k], answers);
      assert s.idle[k] != c;
    }
  }

  lemma CheckedIsUsed(s: State, n: State, end: State, t: TaskId, fit: ConnId -> bool, created: Option<ConnId>,
                      d: ConnId)
    requires t < |s.tasks| && n.tasks == s.tasks[t := Waiting(Retry)] && (n.closed || n.permits > 0)
    requires n.idle == s.idle && n.closed == s.closed
    requires CheckedEnd(n, end, t, Retry, fit, created)
    requires ItemPools.GetCheckedResult(View(s), fit, created) == Ok(d)
    ensures end.tasks == s.tasks[t := Exchanging(Retry, d)]
  {
    assert ItemPools.GetCheckedResult(View(n), fit, created) == Ok(d);
    assert n.tasks[t := Exchanging(Retry, d)] == s.tasks[t := Exchanging(Retry, d)];
  }

  /** A task whose first attempt broke comes, without waiting for others, to its second attempt: on the
      connection that `get_checked` yields. */
  lemma RetryAlone(s: State, t: TaskId, c: ConnId, left: Conn, fit: ConnId -> bool, answers: ConnId -> Answer,
                   created: Option<ConnId>) returns (run: seq<Action>, d: ConnId)
    requires Inv(s) && !s.closed && s.lock == None && t < |s.tasks| && s.tasks[t] == Exchanging(FirstTry, c)
    requires FitAnswers(s, fit, answers) && (created.Some? ==> created.value == |s.conns|)
    requires ItemPools.GetCheckedResult(View(s), fit, created).Ok?
    ensures RunsAlone(s, run, t) && run != [] && run[0] == ExchangeDone(t, Broken(left))
    ensures ItemPools.GetCheckedResult(View(s), fit, created) == Ok(d)
    ensures After(s, run).tasks == s.tasks[t := Exchanging(Retry, d)]
  {
    var a := ExchangeDone(t, Broken(left));
    BrokenStep(s, t, c, left);
    var n := Next(s, a);
    IdleStillFits(s, n, t, c, fit, answers);
    var more := GetCheckedAgrees(n, t, Retry, fit, answers, created);
    d := ItemPools.GetCheckedResult(View(s), fit, created).value;
    CheckedIsUsed(s, n, After(n, more), t, fit, created, d);
    OneStepMore(s, a, more, t);
    run := [a] + more;
  }

  /** A task that has come to its second attempt can end it, which is then its second. */
  lemma SecondCanEnd(s: State, run: seq<Action>, t: TaskId, d: ConnId, last: Conn)
    requires Inv(s) && ModesFit(s) && CanRun(s, run) && t < |s.tasks| && AttemptsLeft(s.tasks[t]) == 2
    requires run != [] && run[0].ExchangeDone? && run[0].t == t
    requires t < |After(s, run).tasks| && After(s, run).tasks[t] == Exchanging(Retry, d)
    ensures CanRun(s, run + [ExchangeDone(t, Broken(last))])
    ensures Attempts(run + [ExchangeDone(t, Broken(last))], t) == 2
  {
    var a := ExchangeDone(t, Broken(last));
    RunKeepsInv(s, run);
    assert HolderIsKnown(After(s, run), t);
    Extend(s, run, a);
    AttemptsAreSpent(s, run, t);
    AttemptsAppend(run, a, t);
  }

  /** From every reachable state with an open pool and a free lock, a first attempt that ends broken,
      with whatever is left on its connection, is followed by a second one of the same task alone: on
      another connection, which has passed a check or has just been opened. */
  lemma BrokenIsRetried(s: State, t: TaskId, c: ConnId, left: Conn, fit: ConnId -> bool,
                        answers: ConnId -> Answer, created: Option<ConnId>, last: Conn)
    returns (run: seq<Action>, d: ConnId, i: int)
    requires Inv(s) && ModesFit(s) && !s.closed && s.lock == None
    requires t < |s.tasks| && s.tasks[t] == Exchanging(FirstTry, c)
    requires FitAnswers(s, fit, answers) && (created.Some? ==> created.value == |s.conns|)
    requires ItemPools.GetCheckedResult(View(s), fit, created).Ok?
    ensures RunsAlone(s, run, t) && run != [] && run[0] == ExchangeDone(t, Broken(left))
    ensures After(s, run).tasks == s.tasks[t := Exchanging(Retry, d)]
    ensures d != c && VerifiedAt(s, run, i, t, d)
    ensures CanRun(s, run + [ExchangeDone(t, Broken(last))])
    ensures Attempts(run + [ExchangeDone(t, Broken(last))], t) == 2
  {
    run, d := RetryAlone(s, t, c, left, fit, answers, created);
    i := SecondIsVerified(s, run, t, d);
    SecondUsesAnother(s, t, left, run[1..], d);
    SecondCanEnd(s, run, t, d, last);
  }

  /** With whoever holds the lock, a task that waits for its second attempt can come to it. */
  lemma WaitingCanAttempt(s: State, t: TaskId) returns (run: seq<Action>)
    requires Inv(s) && !s.closed && s.permits > 0 && t < |s.tasks| && s.tasks[t] == Waiting(Retry)
    ensures CanRun(s, run) && Attempts(run, t) > 0
  {
    var free := [];
    if s.lock.Some? {
      assert HasLock(s.tasks[s.lock.value]);
      free := FinishClear(s, s.lock.value);
    }
    var n := After(s, free);
    RunKeepsInv(s, free);
    var more := GetCheckedAgrees(n, t, Retry, c => false, c => Whole([]), Some(|n.conns|));
    Chain(s, free, more);
    RunKeepsInv(s, free + more);
    var end := After(s, free + more);
    assert HolderIsKnown(end, t);
    var last := ExchangeDone(t, Broken(NewConn));
    Extend(s, free + more, last);
    AttemptsAppend(free + more, last, t);
    run := free + more + [last];
  }

  /** After a first attempt, a task has another one left exactly if it waits for it. */
  lemma AfterFirst(s: State, a: Action)
    requires Inv(s) && ModesFit(s) && Enabled(s, a) && a.ExchangeDone? && s.tasks[a.t].mode.FirstTry?
    ensures var n := Next(s, a);
            && Inv(n) && ModesFit(n) && n.closed == s.closed && a.t < |n.tasks|
            && (if a.outcome.Broken? then n.tasks[a.t] == Waiting(Retry) && n.permits == s.permits + 1
                else AttemptsLeft(n.tasks[a.t]) == 0)
  {
    var c := s.tasks[a.t].conn;
    InvStep(s, a);
    StepAdvances(s, a);
    if Drops(a.outcome) {
      DoubtfulIsDropped(s, a.t, c, a.outcome);
    } else {
      ReplyStep(s, a.t, c, a.outcome);
    }
  }

  lemma NoMoreAttempts(n: State, run: seq<Action>, t: TaskId)
    requires ModesFit(n) && CanRun(n, run) && t < |n.tasks|
    requires AttemptsLeft(n.tasks[t]) == 0 || (n.closed && !HasPermit(n.tasks[t]))
    ensures Attempts(run, t) == 0
  {
    if AttemptsLeft(n.tasks[t]) == 0 {
      AtMostTwoAttempts(n, run, t);
    } else {
      NoAttemptAfterClose(n, run, t);
    }
  }

  /** Some run of all tasks brings the task to the end of another request. */
  ghost predicate CanAttempt(s: State, t: TaskId) {
    exists run :: CanRun(s, run) && Attempts(run, t) > 0
  }

  /** After a first attempt there can be a second one if and only if the first ended broken and the
      pool was open. */
  lemma SecondAttemptIff(s: State, a: Action)
    requires Inv(s) && ModesFit(s) && Enabled(s, a) && a.ExchangeDone? && s.tasks[a.t].mode.FirstTry?
    ensures CanAttempt(Next(s, a), a.t) <==> a.outcome.Broken? && !s.closed
  {
    var n := Next(s, a);
    AfterFirst(s, a);
    if a.outcome.Broken? && !s.closed {
      var run := WaitingCanAttempt(n, a.t);
    } else {
      forall run | CanRun(n, run) ensures Attempts(run, a.t) == 0 {
        NoMoreAttempts(n, run, a.t);
      }
    }
  }

  /** The same for every reachable state. */
  lemma RetriedIffBroken(limit: nat, run: seq<Action>, a: Action)
    requires CanRun(Initial(limit), run) && Enabled(After(Initial(limit), run), a) && a.ExchangeDone?
    requires After(Initial(limit), run).tasks[a.t].mode.FirstTry?
    ensures var s := After(Initial(limit), run);
            CanAttempt(Next(s, a), a.t) <==> a.outcome.Broken? && !s.closed
  {
    ReachableIsSafe(limit, run);
    RunFitsModes(Initial(limit), run);
    SecondAttemptIff(After(Initial(limit), run), a);
  }
}
