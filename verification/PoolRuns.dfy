/** Whole runs of the pool: safety in every reachable state, closing, and progress. */
module PoolRuns {
  import opened Wrappers
  import opened Framing
  import opened Pool
  import opened PoolInvariants

  ghost predicate CanRun(s: State, run: seq<Action>)
    decreases |run|
  {
    run == [] || (Enabled(s, run[0]) && CanRun(Next(s, run[0]), run[1..]))
  }

  ghost function After(s: State, run: seq<Action>): State
    requires CanRun(s, run)
    decreases |run|
  {
    if run == [] then s else After(Next(s, run[0]), run[1..])
  }

  lemma {:induction false} RunKeepsInv(s: State, run: seq<Action>)
    requires Inv(s) && CanRun(s, run)
    ensures Inv(After(s, run))
    decreases |run|
  {
    if run != [] {
      InvStep(s, run[0]);
      RunKeepsInv(Next(s, run[0]), run[1..]);
    }
  }

  /** In every reachable state: the deque, the held connections and those being opened fit the
      limit; each connection is in one place; and a usable connection is at a response boundary. */
  lemma ReachableIsSafe(limit: nat, run: seq<Action>)
    requires CanRun(Initial(limit), run)
    ensures Inv(After(Initial(limit), run))
    ensures var s := After(Initial(limit), run);
            && s.limit == limit
            && |s.idle| + Sum(s.tasks, Slot) <= limit
            && (forall k | 0 <= k < |s.idle| :: s.idle[k] < |s.conns| && AtBoundary(s.conns[s.idle[k]]))
  {
    RunKeepsInv(Initial(limit), run);
    LimitIsFixed(Initial(limit), run);
    var s := After(Initial(limit), run);
    forall k | 0 <= k < |s.idle| ensures s.idle[k] < |s.conns| && AtBoundary(s.conns[s.idle[k]]) {
      assert Usable(s, s.idle[k]);
    }
  }

  lemma {:induction false} LimitIsFixed(s: State, run: seq<Action>)
    requires CanRun(s, run)
    ensures After(s, run).limit == s.limit
    decreases |run|
  {
    if run != [] {
      SumStep(s, run[0], Permit);
      LimitIsFixed(Next(s, run[0]), run[1..]);
    }
  }

  /** Whatever happened before on its connection, a request that the daemon answers with one whole
      response gets exactly that response. */
  lemma OwnResponse(limit: nat, run: seq<Action>, a: Action)
    requires CanRun(Initial(limit), run)
    requires Enabled(After(Initial(limit), run), a) && a.ExchangeDone? && !Drops(a.outcome)
    requires a.outcome.answer.Whole?
    ensures var s := After(Initial(limit), run);
            var text := Concat(a.outcome.answer.lines);
            ReplyTo(s.conns[s.tasks[a.t].conn], a.outcome.answer)
            == if BeginsErr(text) then ProtocolError(text) else Response(text)
  {
    ReachableIsSafe(limit, run);
    ClassifyMeans(Concat(a.outcome.answer.lines));
    var s := After(Initial(limit), run);
    var c := s.tasks[a.t].conn;
    assert HolderIsKnown(s, a.t) && Usable(s, c);
    WholeReply(s.conns[c], a.outcome.answer);
  }

  lemma WholeReply(c: Conn, answer: Answer)
    requires c.unread == [] && Answers(c, answer) && answer.Whole?
    ensures ReplyTo(c, answer) == Classify(Concat(answer.lines))
  {
    ReplyTakesAll(c, answer);
    var r := Concat(answer.lines);
    assert r[0..|r|] == r;
  }

  // ---------- Connections that left the pool ----------

  predicate Gone(s: State, c: ConnId) {
    c < |s.place| && (s.place[c] == Destroyed || s.place[c] == HandedOut)
  }

  /** A connection that was destroyed or handed out never comes back. */
  lemma {:induction false} GoneForever(s: State, run: seq<Action>, c: ConnId)
    requires Inv(s) && CanRun(s, run) && Gone(s, c)
    ensures Gone(After(s, run), c) && After(s, run).place[c] == s.place[c]
    decreases |run|
  {
    if run != [] {
      InvStep(s, run[0]);
      if !run[0].Spawn? {
        StepSteps(s, run[0]);
        GoneKept(s, Next(s, run[0]), run[0].t, FlowOf(s, run[0]), c);
      }
      GoneForever(Next(s, run[0]), run[1..], c);
    }
  }

  lemma GoneKept(s: State, n: State, t: TaskId, f: Flow, c: ConnId)
    requires Located(s) && Accounts(s, n, t) && Moves(s, n, t, f) && Gone(s, c)
    ensures Gone(n, c) && n.place[c] == s.place[c]
  {
    if HeldConn(s.tasks[t]).Some? {
      assert HolderIsKnown(s, t);
    }
  }

  // ---------- After close ----------

  /** Once the pool is closed it stays closed: no task that waits for a permit gets one, and no
      release that has yet to test the semaphore pushes its connection. */
  lemma {:induction false} ClosedForGood(s: State, run: seq<Action>, t: TaskId)
    requires s.closed && CanRun(s, run)
    ensures var n := After(s, run);
            && n.closed && |n.tasks| >= |s.tasks|
            && (t < |n.tasks| && HasPermit(n.tasks[t]) ==> t < |s.tasks| && HasPermit(s.tasks[t]))
            && (t < |n.tasks| && n.tasks[t].Pushing? ==> t < |s.tasks| && s.tasks[t] == n.tasks[t])
    decreases |run|
  {
    if run != [] {
      ClosedStep(s, run[0]);
      ClosedForGood(Next(s, run[0]), run[1..], t);
    }
  }

  lemma ClosedStep(s: State, a: Action)
    requires s.closed && Enabled(s, a)
    ensures var n := Next(s, a);
            && n.closed && |n.tasks| >= |s.tasks|
            && forall t | 0 <= t < |n.tasks| ::
                 && (HasPermit(n.tasks[t]) ==> t < |s.tasks| && HasPermit(s.tasks[t]))
                 && (n.tasks[t].Pushing? ==> t < |s.tasks| && s.tasks[t] == n.tasks[t])
  {
    if !a.Spawn? {
      StepSteps(s, a);
      NoNewPermit(s, a);
    }
  }

  lemma NoNewPermit(s: State, a: Action)
    requires s.closed && Enabled(s, a) && !a.Spawn?
    ensures a.t < |s.tasks| == |Next(s, a).tasks|
    ensures HasPermit(Next(s, a).tasks[a.t]) ==> HasPermit(s.tasks[a.t])
  {
  }

  /** After close and a finished clear, what the deque holds was released by a task that had passed
      the closed test before the close. */
  lemma OnlyLateReleasesRemain(limit: nat, run: seq<Action>, k: nat)
    requires CanRun(Initial(limit), run)
    requires var s := After(Initial(limit), run); s.closed && s.cleared && k < |s.idle|
    ensures var s := After(Initial(limit), run); s.idle[k] in s.late
  {
    RunKeepsInv(Initial(limit), run);
  }

  lemma {:induction false} Chain(s: State, run: seq<Action>, more: seq<Action>)
    requires CanRun(s, run) && CanRun(After(s, run), more)
    ensures CanRun(s, run + more) && After(s, run + more) == After(After(s, run), more)
    decreases |run|
  {
    if run == [] {
      assert run + more == more;
    } else {
      Chain(Next(s, run[0]), run[1..], more);
      assert (run + more)[1..] == run[1..] + more;
    }
  }

  lemma Extend(s: State, run: seq<Action>, a: Action)
    requires CanRun(s, run) && Enabled(After(s, run), a)
    ensures CanRun(s, run + [a]) && After(s, run + [a]) == Next(After(s, run), a)
  {
    assert [a][1..] == [];
    Chain(s, run, [a]);
  }

  lemma Prepend(s: State, a: Action, more: seq<Action>)
    requires Enabled(s, a) && CanRun(Next(s, a), more)
    ensures CanRun(s, [a] + more) && After(s, [a] + more) == After(Next(s, a), more)
  {
    assert ([a] + more)[1..] == more;
  }

  /** A clear that holds the lock has run to its end while no other task moved: every idle connection
      is destroyed, and the one that it was deallocating. */
  predicate HasCleared(s: State, t: TaskId, n: State)
    requires t < |s.tasks|
  {
    && n.closed == s.closed && n.cleared == (s.cleared || s.closed)
    && n.idle == [] && n.lock == None && n.permits == s.permits
    && n.tasks == s.tasks[t := Finished]
    && (s.tasks[t].ClearingOne? ==> IsDestroyed(n, s.tasks[t].conn))
    && (forall k | 0 <= k < |s.idle| :: IsDestroyed(n, s.idle[k]))
  }

  predicate HoldsLock(s: State, t: TaskId) {
    t < |s.tasks| && s.lock == Some(t) && HasLock(s.tasks[t])
  }

  lemma {:induction false} FinishClear(s: State, t: TaskId) returns (run: seq<Action>)
    requires Inv(s) && HoldsLock(s, t)
    ensures CanRun(s, run) && Inv(After(s, run)) && HasCleared(s, t, After(s, run))
    decreases |s.idle|, s.tasks[t].ClearingOne?, 1
  {
    if s.tasks[t].ClearingOne? {
      run := FinishDealloc(s, t);
    } else if s.idle != [] {
      run := FinishPop(s, t);
    } else {
      var a := ClearNext(t);
      InvStep(s, a);
      ClearMoves(s, a);
      Prepend(s, a, []);
      run := [a] + [];
    }
  }

  lemma {:induction false} FinishDealloc(s: State, t: TaskId) returns (run: seq<Action>)
    requires Inv(s) && HoldsLock(s, t) && s.tasks[t].ClearingOne?
    ensures CanRun(s, run) && Inv(After(s, run)) && HasCleared(s, t, After(s, run))
    decreases |s.idle|, s.tasks[t].ClearingOne?, 0
  {
    assert HolderIsKnown(s, t);
    var a := DeallocDone(t);
    var n := Next(s, a);
    InvStep(s, a);
    ClearMoves(s, a);
    var more := FinishClear(n, t);
    GoneForever(n, more, s.tasks[t].conn);
    assert s.tasks[t := n.tasks[t]][t := Finished] == s.tasks[t := Finished];
    Prepend(s, a, more);
    run := [a] + more;
  }

  lemma {:induction false} FinishPop(s: State, t: TaskId) returns (run: seq<Action>)
    requires Inv(s) && HoldsLock(s, t) && s.tasks[t].Clearing? && s.idle != []
    ensures CanRun(s, run) && Inv(After(s, run)) && HasCleared(s, t, After(s, run))
    decreases |s.idle|, s.tasks[t].ClearingOne?, 0
  {
    var a := ClearNext(t);
    var n := Next(s, a);
    InvStep(s, a);
    ClearMoves(s, a);
    var more := FinishClear(n, t);
    var end := After(n, more);
    assert s.tasks[t := n.tasks[t]][t := Finished] == s.tasks[t := Finished];
    forall k | 0 <= k < |s.idle| ensures IsDestroyed(end, s.idle[k]) {
      assert k < |s.idle| - 1 ==> n.idle[k] == s.idle[k];
    }
    Prepend(s, a, more);
    run := [a] + more;
  }

  predicate IsDestroyed(s: State, c: ConnId) {
    c < |s.place| && s.place[c] == Destroyed
  }

  /** The steps of a clear that holds the lock. */
  lemma ClearMoves(s: State, a: Action)
    requires Enabled(s, a) && (a.ClearNext? || (a.DeallocDone? && s.tasks[a.t].ClearingOne?))
    requires s.lock == Some(a.t)
    ensures var n := Next(s, a);
            && n.closed == s.closed && n.permits == s.permits
            && |n.tasks| == |s.tasks| && n.tasks == s.tasks[a.t := n.tasks[a.t]]
    ensures var n := Next(s, a);
            a.DeallocDone? ==>
              && n.tasks[a.t].Clearing? && n.idle == s.idle && n.lock == Some(a.t) && n.cleared == s.cleared
              && IsDestroyed(n, s.tasks[a.t].conn)
    ensures var n := Next(s, a);
            a.ClearNext? && s.idle != [] ==>
              && n.idle == s.idle[..|s.idle| - 1] && n.lock == Some(a.t) && n.cleared == s.cleared
              && n.tasks[a.t] == ClearingOne(s.idle[|s.idle| - 1])
    ensures var n := Next(s, a);
            a.ClearNext? && s.idle == [] ==>
              n.tasks[a.t].Finished? && n.lock == None && n.cleared == (s.cleared || s.closed) && n.idle == []
  {
  }

  lemma ClosedTakeLock(s: State)
    requires Inv(s) && s.closed && s.lock == None
    ensures var start := Next(s, Spawn(AwaitingLock));
            && Enabled(start, TakeLock(|s.tasks|))
            && var n := Next(start, TakeLock(|s.tasks|));
               Inv(n) && n.closed && n.lock == Some(|s.tasks|) && n.tasks == s.tasks + [Clearing]
  {
    var start := Next(s, Spawn(AwaitingLock));
    InvStep(s, Spawn(AwaitingLock));
    InvStep(start, TakeLock(|s.tasks|));
    assert start.tasks[|s.tasks| := Clearing] == s.tasks + [Clearing];
  }

  /** Whoever holds the lock, a closed pool can be cleared while all other tasks stand still. */
  lemma ClearClosed(s: State) returns (run: seq<Action>)
    requires Inv(s) && s.closed
    ensures CanRun(s, run)
    ensures var n := After(s, run);
            && Inv(n) && n.closed && n.cleared && n.idle == [] && n.lock == None
            && |n.tasks| >= |s.tasks|
            && forall u | 0 <= u < |s.tasks| && s.tasks[u].Pushing? :: n.tasks[u] == s.tasks[u]
  {
    if s.lock == None {
      ClosedTakeLock(s);
      Extend(s, [], Spawn(AwaitingLock));
      Extend(s, [] + [Spawn(AwaitingLock)], TakeLock(|s.tasks|));
      var begin := [] + [Spawn(AwaitingLock)] + [TakeLock(|s.tasks|)];
      var rest := FinishClear(After(s, begin), |s.tasks|);
      assert forall u | 0 <= u < |s.tasks| :: (s.tasks + [Clearing])[|s.tasks| := Finished][u] == s.tasks[u];
      Chain(s, begin, rest);
      run := begin + rest;
    } else {
      assert HasLock(s.tasks[s.lock.value]);
      run := FinishClear(s, s.lock.value);
    }
  }

  /** From every closed state in which a release has passed the closed test, a run leads to a closed
      and cleared pool whose deque holds just the connection of that release. */
  lemma LateReleaseRemains(s: State, u: TaskId) returns (run: seq<Action>)
    requires Inv(s) && s.closed && u < |s.tasks| && s.tasks[u].Pushing?
    ensures CanRun(s, run)
    ensures var n := After(s, run); n.closed && n.cleared && n.idle == [s.tasks[u].conn]
  {
    run := ClearClosed(s);
    var n := After(s, run);
    assert HolderIsKnown(n, u);
    Extend(s, run, Push(u));
    run := run + [Push(u)];
  }

  lemma {:induction false} LateIsFixed(s: State, run: seq<Action>)
    requires s.closed && CanRun(s, run)
    ensures After(s, run).closed && After(s, run).late == s.late
    decreases |run|
  {
    if run != [] {
      if !run[0].Spawn? && !run[0].ClosePermits? {
        StepSteps(s, run[0]);
      }
      LateIsFixed(Next(s, run[0]), run[1..]);
    }
  }

  lemma LeftIsLate(s: State)
    requires OnlyLateReleases(s) && s.closed && s.cleared
    ensures s.idle != [] ==> s.late != {}
  {
    if s.idle != [] {
      assert s.idle[0] in s.late;
    }
  }

  /** In every later state in which a clear has finished, the deque is empty. */
  ghost predicate LeavesNothing(s: State) {
    forall run :: CanRun(s, run) && After(s, run).cleared ==> After(s, run).idle == []
  }

  /** Closing the pool leaves no connection behind, in any later cleared state, if and only if no
      release has passed the closed test and is about to push when the semaphore closes. */
  lemma CloseLeavesNothing(s: State, t: TaskId)
    requires Inv(s) && !s.closed && t < |s.tasks| && s.tasks[t].Closing?
    ensures Enabled(s, ClosePermits(t))
    ensures LeavesNothing(Next(s, ClosePermits(t)))
            <==> forall u | 0 <= u < |s.tasks| :: !s.tasks[u].Pushing?
  {
    var n := Next(s, ClosePermits(t));
    InvStep(s, ClosePermits(t));
    if u :| 0 <= u < |s.tasks| && s.tasks[u].Pushing? {
      var run := LateReleaseRemains(n, u);
      assert After(n, run).idle != [];
    } else {
      assert n.late == {};
      forall run | CanRun(n, run) && After(n, run).cleared ensures After(n, run).idle == [] {
        RunKeepsInv(n, run);
        LateIsFixed(n, run);
        LeftIsLate(After(n, run));
      }
    }
  }

  /** A pooled call that has opened its connection. */
  lemma CallInFlight() returns (run: seq<Action>)
    ensures CanRun(Initial(1), run)
    ensures var s := After(Initial(1), run);
            && s.tasks == [Exchanging(FirstTry, 0)] && s.conns == [NewConn] && |s.place| == 1
            && s.idle == [] && s.lock == None && !s.closed
  {
    run := [];
    Extend(Initial(1), run, Spawn(Waiting(FirstTry)));
    run := run + [Spawn(Waiting(FirstTry))];
    Extend(Initial(1), run, Acquire(0));
    run := run + [Acquire(0)];
    Extend(Initial(1), run, Pop(0));
    run := run + [Pop(0)];
    Extend(Initial(1), run, InitDone(0, true));
    run := run + [InitDone(0, true)];
  }

  lemma SomeAnswer() returns (answer: Answer)
    ensures Answers(NewConn, answer) && ReplyTo(NewConn, answer).Response?
  {
    answer := Whole(["OK\n"]);
    assert Concat(["OK\n"]) == "OK\n" + Concat([]) == "OK\n";
    assert "OK\n"[0..3] == "OK\n";
    ResponseIsTaken("OK\n", 0, ["OK\n"], false);
    assert Stream(NewConn, answer) == "OK\n";
  }

  lemma ReleaseInFlight() returns (run: seq<Action>)
    ensures CanRun(Initial(1), run)
    ensures var s := After(Initial(1), run);
            s.tasks == [Pushing(0)] && |s.conns| == |s.place| == 1 && s.lock == None && !s.closed
  {
    var answer := SomeAnswer();
    run := CallInFlight();
    Extend(Initial(1), run, ExchangeDone(0, Completed(answer)));
    run := run + [ExchangeDone(0, Completed(answer))];
    Extend(Initial(1), run, Test(0));
    run := run + [Test(0)];
  }

  /** Such a release can be in flight when the pool closes. */
  lemma ReleaseMeetsClose() returns (run: seq<Action>)
    ensures CanRun(Initial(1), run)
    ensures var s := After(Initial(1), run); s.closed && |s.tasks| == 2 && s.tasks[0] == Pushing(0)
  {
    run := ReleaseInFlight();
    Extend(Initial(1), run, Spawn(Closing));
    run := run + [Spawn(Closing)];
    Extend(Initial(1), run, ClosePermits(1));
    run := run + [ClosePermits(1)];
  }

  /** A run of a pool of one that ends closed and cleared with a connection in the deque. */
  lemma ClosedPoolHoldsConnection() returns (run: seq<Action>)
    ensures CanRun(Initial(1), run)
    ensures var s := After(Initial(1), run); s.closed && s.cleared && s.idle == [0]
  {
    var begin := ReleaseMeetsClose();
    RunKeepsInv(Initial(1), begin);
    var rest := LateReleaseRemains(After(Initial(1), begin), 0);
    Chain(Initial(1), begin, rest);
    run := begin + rest;
  }
}
