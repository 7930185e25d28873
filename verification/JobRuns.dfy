/** What holds of every run of the parallel job manager, whatever the interleaving. */
module JobRuns {
  import opened JobManager

  ghost predicate AllPositive(todo: seq<Request>) {
    forall i | 0 <= i < |todo| :: todo[i].threads >= 1
  }

  /** s is reached by some run that schedules the requests todo. */
  ghost predicate Reachable(maxThreads: int, todo: seq<Request>, s: State) {
    exists as_: seq<Action> :: Reaches(Init(maxThreads, todo), as_, s)
  }

  lemma {:induction false} RunKeepsInv(s: State, as_: seq<Action>, s': State)
    requires Inv(s) && Reaches(s, as_, s')
    ensures Inv(s') && s'.maxThreads == s.maxThreads && s'.capacity == s.capacity
    decreases |as_|
  {
    if as_ != [] {
      StepKeeps(s, as_[0]);
      RunKeepsInv(Do(s, as_[0]), as_[1..], s');
    }
  }

  lemma {:induction false} ReachableInv(maxThreads: int, todo: seq<Request>, s: State)
    requires AllPositive(todo) && Reachable(maxThreads, todo, s)
    ensures Inv(s) && s.maxThreads == maxThreads && s.capacity == CHANNEL_CAPACITY
  {
    var as_ :| Reaches(Init(maxThreads, todo), as_, s);
    InitInv(maxThreads, todo);
    RunKeepsInv(Init(maxThreads, todo), as_, s);
  }

  // ---------- barriers ----------

  predicate Started(st: Status) {
    !st.Queued? && !st.Skipped?
  }

  /** The task has run to its end and its threads have been given back. */
  predicate IsDone(st: Status) {
    st.Released? || st.Reported? || st.Finished?
  }

  /** Once a job behind a barrier has started, every job before the barrier is done, also when
      errors have made the dispatcher skip jobs. */
  lemma {:induction false} BarrierSafety(maxThreads: int, todo: seq<Request>, s: State, i: nat, b: nat, j: nat)
    requires AllPositive(todo) && Reachable(maxThreads, todo, s)
    requires i < b < j < |s.jobs| == |s.status| && s.jobs[b].isBarrier && Started(s.status[j])
    ensures IsDone(s.status[i])
  {
    ReachableInv(maxThreads, todo, s);
    assert s.status[b] != Queued && s.status[i] != Queued;
    assert s.status[b] != Skipped && s.status[i] != Skipped;
    assert !Active(s.status[i]);
  }

  // ---------- the thread budget ----------

  /** currentThreads is the sum over the active jobs, and above the limit only for a single job
      that alone asks for more than the limit. */
  lemma {:induction false} ThreadBudget(maxThreads: int, todo: seq<Request>, s: State)
    requires AllPositive(todo) && Reachable(maxThreads, todo, s)
    ensures |s.jobs| == |s.status| && s.currentThreads == ActiveThreads(s.jobs, s.status) >= 0
    ensures s.currentThreads <= maxThreads || s.currentThreads == 0 ||
            exists i: nat :: OnlyActive(s, i) && s.jobs[i].threads == s.currentThreads
  {
    ReachableInv(maxThreads, todo, s);
    ActiveThreadsMeaning(s.jobs, s.status);
    if i: nat :| OnlyActive(s, i) {
      ActiveThreadsUpdate(s.jobs, s.status, i, Queued);
      ActiveThreadsMeaning(s.jobs, s.status[i := Queued]);
    }
  }

  // ---------- the wait group ----------

  /** The wait group counter is what is sent and not retired, less a send whose Add is to come. */
  lemma {:induction false} WaitGroupCount(maxThreads: int, todo: seq<Request>, s: State)
    requires AllPositive(todo) && Reachable(maxThreads, todo, s)
    ensures s.waitCount == Sent(s) - CountRetired(s.status) - (if s.caller.Adding? then 1 else 0)
    ensures s.waitCount >= -1
    ensures s.waitCount < 0 <==> s.caller.Adding? && forall i | 0 <= i < |s.status| :: Retired(s.status[i])
  {
    ReachableInv(maxThreads, todo, s);
    CountRetiredBound(s.status);
    if s.caller.Sending? {
      assert s.status[|s.jobs| - 1] == Queued;
      CountRetiredUpdate(s.status, |s.jobs| - 1, Finished);
      CountRetiredBound(s.status[|s.jobs| - 1 := Finished]);
    }
  }

  lemma {:induction false} ReachStep(maxThreads: int, todo: seq<Request>, s: State, a: Action)
    requires Reachable(maxThreads, todo, s) && Enabled(s, a)
    ensures Reachable(maxThreads, todo, Do(s, a))
  {
    var as_ :| Reaches(Init(maxThreads, todo), as_, s);
    Append(Init(maxThreads, todo), as_, s, a);
  }

  lemma {:induction false} Append(s: State, as_: seq<Action>, s': State, a: Action)
    requires Reaches(s, as_, s') && Enabled(s', a)
    ensures Reaches(s, as_ + [a], Do(s', a))
    decreases |as_|
  {
    if as_ != [] {
      Append(Do(s, as_[0]), as_[1..], s', a);
      assert (as_ + [a])[1..] == as_[1..] + [a];
    } else {
      assert ([a])[1..] == [];
    }
  }

  /** A state with one job of one thread, none to come. */
  function OneJob(channel: seq<nat>, received: nat, c: Caller, d: Dispatcher, threads: int, waitCount: int, st: Status): State {
    State(4, CHANNEL_CAPACITY, [], [Request(1, false)], [st], {}, channel, received, c, d, threads, waitCount, false)
  }

  /** Since a job is added after it is sent, the counter can indeed fall below zero, where the
      Go runtime stops the program: one job that runs to its report before the Add. */
  lemma {:induction false} CounterCanBeNegative()
    ensures exists s :: Reachable(4, [Request(1, false)], s) && s.waitCount == -1
  {
    var todo := [Request(1, false)];
    LaunchedBeforeAdd();
    var s7 := OneJob([], 1, Adding, Unlock, 1, 0, Running);
    assert Do(s7, Work(0, false)) == s7.(status := [Returned]);
    ReachStep(4, todo, s7, Work(0, false));
    var s9 := OneJob([], 1, Adding, Unlock, 0, 0, Released);
    assert Do(s7.(status := [Returned]), Work(0, false)) == s9;
    ReachStep(4, todo, s7.(status := [Returned]), Work(0, false));
    ReachStep(4, todo, s9, Work(0, false));
  }

  lemma {:induction false} SentBeforeAdd()
    ensures Reachable(4, [Request(1, false)], OneJob([], 1, Adding, Check, 0, 0, Queued))
  {
    var todo := [Request(1, false)];
    var s0, s1 := Init(4, todo), OneJob([], 0, Sending, Receive, 0, 0, Queued);
    assert Reaches(s0, [], s0);
    assert Do(s0, Call) == s1;
    ReachStep(4, todo, s0, Call);
    var s2 := OneJob([0], 0, Adding, Receive, 0, 0, Queued);
    assert Do(s1, Call) == s2;
    ReachStep(4, todo, s1, Call);
    assert Do(s2, Dispatch) == OneJob([], 1, Adding, Check, 0, 0, Queued);
    ReachStep(4, todo, s2, Dispatch);
  }

  lemma {:induction false} LaunchedBeforeAdd()
    ensures Reachable(4, [Request(1, false)], OneJob([], 1, Adding, Unlock, 1, 0, Running))
  {
    var todo := [Request(1, false)];
    SentBeforeAdd();
    var s3 := OneJob([], 1, Adding, Check, 0, 0, Queued);
    ReachStep(4, todo, s3, Dispatch);
    ReachStep(4, todo, s3.(dispatcher := Lock), Dispatch);
    ReachStep(4, todo, s3.(dispatcher := Test), Dispatch);
    assert Do(s3.(dispatcher := Launch), Dispatch) == OneJob([], 1, Adding, Unlock, 1, 0, Running);
    ReachStep(4, todo, s3.(dispatcher := Launch), Dispatch);
  }

  /** When Wait has returned every accepted job is retired, and it returned nil exactly when every
      accepted job ran and returned nil. */
  lemma {:induction false} WaitMeansDone(maxThreads: int, todo: seq<Request>, s: State)
    requires AllPositive(todo) && Reachable(maxThreads, todo, s) && s.caller.WaitReturned?
    ensures s.todo == [] && forall i | 0 <= i < |s.status| :: Retired(s.status[i])
    ensures s.caller.ok <==> s.erred == {} && forall i | 0 <= i < |s.status| :: s.status[i] != Skipped
  {
    ReachableInv(maxThreads, todo, s);
    CountRetiredBound(s.status);
    if s.hasError {
      var i :| i in s.erred;
    }
  }

  // ---------- errors ----------

  predicate IsError(a: Action) {
    a.Work? && a.err
  }

  lemma {:induction false} ErrorsNoted(s: State, as_: seq<Action>, s': State)
    requires Reaches(s, as_, s')
    ensures s'.erred != {} <==> s.erred != {} || exists k :: 0 <= k < |as_| && IsError(as_[k])
    decreases |as_|
  {
    if as_ != [] {
      ErrorsNoted(Do(s, as_[0]), as_[1..], s');
      assert forall k | 1 <= k < |as_| :: as_[1..][k - 1] == as_[k];
    }
  }

  lemma {:induction false} AcceptedWithoutError(s: State, as_: seq<Action>, s': State)
    requires Reaches(s, as_, s') && !s'.hasError
    ensures !s.hasError && s'.jobs + s'.todo == s.jobs + s.todo
    decreases |as_|
  {
    if as_ != [] {
      AcceptedWithoutError(Do(s, as_[0]), as_[1..], s');
    }
  }

  /** Wait returns nil exactly if no task on the way returned an error, and then every request was
      accepted and has run. */
  lemma {:induction false} WaitReportsErrors(maxThreads: int, todo: seq<Request>, as_: seq<Action>, s: State)
    requires AllPositive(todo) && Reaches(Init(maxThreads, todo), as_, s) && s.caller.WaitReturned?
    ensures s.caller.ok <==> forall k | 0 <= k < |as_| :: !IsError(as_[k])
    ensures s.caller.ok ==> s.jobs == todo && |s.status| == |todo| && forall i | 0 <= i < |todo| :: s.status[i].Reported? || s.status[i].Finished?
  {
    WaitMeansDone(maxThreads, todo, s);
    ReachableInv(maxThreads, todo, s);
    ErrorsNoted(Init(maxThreads, todo), as_, s);
    if s.caller.ok {
      AcceptedWithoutError(Init(maxThreads, todo), as_, s);
      assert s.jobs + s.todo == s.jobs;
      assert [] + todo == todo;
    }
  }

  /** The dispatcher has found no error when it last looked, and has yet to launch. */
  predicate PastCheck(d: Dispatcher) {
    match d
    case Lock | Test | Budget | BudgetAsleep | BudgetWoken | Fence | FenceAsleep | FenceWoken | Launch => true
    case _ => false
  }

  lemma {:induction false} StepAfterError(s: State, a: Action)
    requires QueueInv(s) && s.hasError && Enabled(s, a)
    ensures var t := Do(s, a);
            && t.hasError && t.jobs == s.jobs && (PastCheck(t.dispatcher) ==> PastCheck(s.dispatcher) && t.received == s.received)
            && forall i | 0 <= i < |t.status| && Started(t.status[i]) ::
                 i < |s.status| && (Started(s.status[i]) || (PastCheck(s.dispatcher) && i == s.received - 1))
  {
  }

  /** After an error no job is accepted, and none starts but the one that the dispatcher had already
      let through. */
  lemma {:induction false} NothingStartsAfterError(s: State, as_: seq<Action>, s': State, i: nat)
    requires Inv(s) && s.hasError && Reaches(s, as_, s')
    ensures s'.jobs == s.jobs
    ensures i < |s'.status| && Started(s'.status[i]) ==>
              i < |s.status| && (Started(s.status[i]) || (PastCheck(s.dispatcher) && i == s.received - 1))
    decreases |as_|
  {
    if as_ != [] {
      StepKeeps(s, as_[0]);
      StepAfterError(s, as_[0]);
      NothingStartsAfterError(Do(s, as_[0]), as_[1..], s', i);
    }
  }

  /** At most 100 jobs wait in the channel, and scheduling blocks on it only then. */
  lemma {:induction false} ScheduleBlocksIff(maxThreads: int, todo: seq<Request>, s: State)
    requires AllPositive(todo) && Reachable(maxThreads, todo, s)
    ensures |s.channel| <= 100
    ensures s.caller.Sending? ==> (!Enabled(s, Call) <==> |s.channel| == 100)
  {
    ReachableInv(maxThreads, todo, s);
  }

  /** The step a lets the task of job i return. */
  predicate IsReturn(s: State, a: Action, i: nat) {
    a.Work? && a.job == i < |s.status| && s.status[i] == Running
  }

  /** How often job i's task returns in a run. */
  function Returns(s: State, as_: seq<Action>, i: nat): nat
    decreases |as_|
  {
    if as_ == [] || !Enabled(s, as_[0]) then 0
    else (if IsReturn(s, as_[0], i) then 1 else 0) + Returns(Do(s, as_[0]), as_[1..], i)
  }

  /** The task of job i has returned. */
  predicate HasReturned(s: State, i: nat) {
    i < |s.status| && !s.status[i].Queued? && !s.status[i].Running? && !s.status[i].Skipped?
  }

  lemma {:induction false} ReturnStep(s: State, a: Action, i: nat)
    requires QueueInv(s) && Enabled(s, a)
    ensures HasReturned(Do(s, a), i) <==> HasReturned(s, i) || IsReturn(s, a, i)
    ensures IsReturn(s, a, i) ==> !HasReturned(s, i)
  {
  }

  /** Every task returns at most once: exactly once if its job is over, never if it was skipped. */
  lemma {:induction false} TasksReturnOnce(s: State, as_: seq<Action>, s': State, i: nat)
    requires Inv(s) && Reaches(s, as_, s')
    ensures Returns(s, as_, i) + (if HasReturned(s, i) then 1 else 0) == if HasReturned(s', i) then 1 else 0
    decreases |as_|
  {
    if as_ != [] {
      StepKeeps(s, as_[0]);
      ReturnStep(s, as_[0], i);
      TasksReturnOnce(Do(s, as_[0]), as_[1..], s', i);
    }
  }

  // ---------- progress ----------

  ghost predicate FitsBudget(s: State) {
    && (forall i | 0 <= i < |s.jobs| :: 1 <= s.jobs[i].threads <= s.maxThreads)
    && (forall i | 0 <= i < |s.todo| :: 1 <= s.todo[i].threads <= s.maxThreads)
  }

  /** Wait has returned, the dispatcher has left, and every worker has ended. */
  predicate Over(s: State) {
    && s.caller.WaitReturned? && s.dispatcher.Exited?
    && forall i | 0 <= i < |s.status| :: s.status[i].Finished? || s.status[i].Skipped?
  }

  /** Jobs are only ever taken from the requests. */
  lemma {:induction false} JobsMove(s: State, a: Action)
    requires Enabled(s, a)
    ensures var t := Do(s, a);
            && t.maxThreads == s.maxThreads
            && ((t.jobs == s.jobs && t.todo == s.todo)
                || (s.todo != [] && t.todo == s.todo[1..] && (t.jobs == s.jobs || t.jobs == s.jobs + [s.todo[0]])))
  {
  }

  lemma {:induction false} FitKept(s: State, as_: seq<Action>, s': State)
    requires FitsBudget(s) && Reaches(s, as_, s')
    ensures FitsBudget(s')
    decreases |as_|
  {
    if as_ != [] {
      JobsMove(s, as_[0]);
      FitKept(Do(s, as_[0]), as_[1..], s');
    }
  }

  /** A sleeping dispatcher always has a worker that will wake it: one between its subtraction and
      its broadcast when the wait is over, an active one when it is not. */
  lemma {:induction false} SleeperWillBeWoken(s: State)
    requires Inv(s) && FitsBudget(s) && Asleep(s)
    ensures if WaitIsOver(s) then WakeupComing(s) else exists i :: 0 <= i < |s.status| && Active(s.status[i])
  {
    ActiveThreadsMeaning(s.jobs, s.status);
    assert CurrentJob(s) == s.jobs[s.received - 1];
  }

  lemma {:induction false} UnendedWorkerMoves(s: State, i: nat)
    requires Inv(s) && i < |s.status|
    requires !s.status[i].Queued? && !s.status[i].Finished? && !s.status[i].Skipped?
    ensures exists a :: Enabled(s, a)
  {
    if MutexFree(s) || s.status[i].Running? || s.status[i].Returned? || s.status[i].Released? {
      assert Enabled(s, Work(i, false));
    } else {
      assert Enabled(s, Dispatch);
    }
  }

  /** With requests within the limit there is no deadlock: until all is over some thread can move. */
  lemma {:induction false} NoDeadlock(s: State)
    requires Inv(s) && FitsBudget(s) && s.capacity > 0 && !Over(s)
    ensures exists a :: Enabled(s, a)
  {
    if i :| 0 <= i < |s.status| && !s.status[i].Queued? && !s.status[i].Finished? && !s.status[i].Skipped? {
      UnendedWorkerMoves(s, i);
    } else if Asleep(s) {
      SleeperWillBeWoken(s);
    } else if Enabled(s, Dispatch) {
    } else if s.dispatcher == Receive {
      assert s.channel == [] && MutexFree(s);
      assert Enabled(s, Call);
    } else {
      assert s.dispatcher == Drain || s.dispatcher == Exited;
      CountRetiredBound(s.status);
      assert Enabled(s, Call) || s.caller.WaitReturned?;
    }
  }

  function StatusRank(st: Status): nat {
    match st
    case Queued => 9 case Running => 8 case Failing => 7 case Returned => 6
    case Released => 5 case Reported => 4 case Finished => 0 case Skipped => 0
  }

  function StatusRanks(status: seq<Status>): nat {
    if status == [] then 0
    else StatusRanks(status[..|status| - 1]) + StatusRank(status[|status| - 1])
  }

  function DispatcherRank(d: Dispatcher): nat {
    match d
    case Check => 13 case Lock => 12 case Test => 11
    case BudgetWoken => 10 case Budget => 9 case BudgetAsleep => 8
    case FenceWoken => 7 case Fence => 6 case FenceAsleep => 5
    case Launch => 4 case Unlock => 3 case Skip => 3
    case Receive => 2 case Drain => 1 case Exited => 0
  }

  function CallerRank(c: Caller): nat {
    match c
    case Sending => 17 case Adding => 4 case Ready => 3
    case Waiting => 2 case Reading => 1 case WaitReturned(_) => 0
  }

  /** The steps a state has before it, at most. */
  function StepsLeft(s: State): nat {
    24 * |s.todo| + CallerRank(s.caller) + 12 * |s.channel| + DispatcherRank(s.dispatcher) + StatusRanks(s.status)
  }

  lemma {:induction false} StatusRanksUpdate(status: seq<Status>, i: nat, st: Status)
    requires i < |status|
    ensures StatusRanks(status[i := st]) == StatusRanks(status) - StatusRank(status[i]) + StatusRank(st)
  {
    var n := |status| - 1;
    if i < n {
      assert status[i := st][..n] == status[..n][i := st];
      StatusRanksUpdate(status[..n], i, st);
    } else {
      assert status[i := st][..n] == status[..n];
    }
  }

  lemma {:induction false} CallCounts(s: State)
    requires QueueInv(s) && CallerEnabled(s)
    ensures StepsLeft(DoCall(s)) < StepsLeft(s)
  {
    if s.caller.Ready? && s.todo != [] && !s.hasError {
      assert (s.status + [Queued])[..|s.status|] == s.status;
    }
  }

  lemma {:induction false} SettleCounts(s: State)
    requires QueueInv(s) && (s.dispatcher.Launch? || s.dispatcher.Skip?) && DispatcherEnabled(s)
    ensures StepsLeft(DoDispatch(s)) < StepsLeft(s)
  {
    assert s.status[s.received - 1] == Queued;
    StatusRanksUpdate(s.status, s.received - 1, if s.dispatcher.Launch? then Running else Skipped);
  }

  lemma {:induction false} MoveCounts(s: State)
    requires QueueInv(s) && OnlyMoves(s.dispatcher) && DispatcherEnabled(s)
    ensures StepsLeft(DoDispatch(s)) < StepsLeft(s)
  {
    MoveKeepsQueue(s);
    assert DispatcherRank(DoDispatch(s).dispatcher) < DispatcherRank(s.dispatcher);
  }

  lemma {:induction false} DispatchCounts(s: State)
    requires QueueInv(s) && DispatcherEnabled(s)
    ensures StepsLeft(DoDispatch(s)) < StepsLeft(s)
  {
    if OnlyMoves(s.dispatcher) {
      MoveCounts(s);
    } else if s.dispatcher.Receive? {
      assert DoDispatch(s).status == s.status;
    } else {
      SettleCounts(s);
    }
  }

  lemma {:induction false} WorkCounts(s: State, i: nat, err: bool)
    requires QueueInv(s) && i < |s.status| && WorkerEnabled(s, i, err)
    ensures StepsLeft(DoWork(s, i, err)) < StepsLeft(s)
  {
    var s' := DoWork(s, i, err);
    StatusRanksUpdate(s.status, i, s'.status[i]);
    assert s'.status == s.status[i := s'.status[i]];
  }

  /** Every step of every thread, also a wakeup that finds it must sleep again, uses up a step. */
  lemma {:induction false} EveryStepCounts(s: State, a: Action)
    requires QueueInv(s) && Enabled(s, a)
    ensures StepsLeft(Do(s, a)) < StepsLeft(s)
  {
    match a {
      case Call => CallCounts(s);
      case Dispatch => DispatchCounts(s);
      case Work(i, err) => WorkCounts(s, i, err);
    }
  }

  lemma {:induction false} RunsAreShort(s: State, as_: seq<Action>, s': State)
    requires Inv(s) && Reaches(s, as_, s')
    ensures |as_| + StepsLeft(s') <= StepsLeft(s)
    decreases |as_|
  {
    if as_ != [] {
      EveryStepCounts(s, as_[0]);
      StepKeeps(s, as_[0]);
      RunsAreShort(Do(s, as_[0]), as_[1..], s');
    }
  }

  lemma {:induction false} OverIsOver(s: State)
    requires QueueInv(s) && Over(s)
    ensures forall a :: !Enabled(s, a)
  {
  }

  lemma {:induction false} MovesUntilOver(s: State)
    requires Inv(s) && FitsBudget(s) && s.capacity > 0
    ensures (exists a :: Enabled(s, a)) <==> !Over(s)
  {
    if Over(s) {
      OverIsOver(s);
    } else {
      NoDeadlock(s);
    }
  }

  /** Every run of n requests within the limit takes at most 24n + 5 steps and can only stop when
      Wait has returned and all threads have ended. No fairness is needed. */
  lemma {:induction false} EveryRunEnds(maxThreads: int, todo: seq<Request>, as_: seq<Action>, s: State)
    requires forall i | 0 <= i < |todo| :: 1 <= todo[i].threads <= maxThreads
    requires Reaches(Init(maxThreads, todo), as_, s)
    ensures |as_| <= 24 * |todo| + 5
    ensures (exists a :: Enabled(s, a)) <==> !Over(s)
  {
    var s0 := Init(maxThreads, todo);
    InitInv(maxThreads, todo);
    RunKeepsInv(s0, as_, s);
    RunsAreShort(s0, as_, s);
    FitKept(s0, as_, s);
    MovesUntilOver(s);
  }

  // ---------- a job that asks for more than the limit ----------

  /** The dispatcher waits for room for a job that can never have it. */
  predicate WaitsForever(s: State) {
    && HoldsJob(s) && CurrentJob(s).threads > s.maxThreads
    && (s.dispatcher.Budget? || s.dispatcher.BudgetAsleep? || s.dispatcher.BudgetWoken?)
  }

  lemma {:induction false} WaitStep(s: State, a: Action)
    requires QueueInv(s) && s.currentThreads >= 0 && WaitsForever(s) && Enabled(s, a)
    requires QueueInv(Do(s, a))
    ensures WaitsForever(Do(s, a)) && Do(s, a).received == s.received
  {
  }

  /** The job in the dispatcher's hands is still queued. */
  predicate StillQueued(s: State) {
    HoldsJob(s) && s.status[s.received - 1] == Queued
  }

  lemma {:induction false} StillWaits(s: State, as_: seq<Action>, s': State)
    requires Inv(s) && WaitsForever(s) && Reaches(s, as_, s')
    ensures WaitsForever(s') && s'.received == s.received && StillQueued(s')
    decreases |as_|
  {
    if as_ != [] {
      ActiveThreadsMeaning(s.jobs, s.status);
      StepKeeps(s, as_[0]);
      WaitStep(s, as_[0]);
      StillWaits(Do(s, as_[0]), as_[1..], s');
    }
  }

  /** In no continuation does the job in the dispatcher's hands start. */
  ghost predicate NeverLaunched(s: State) {
    forall as_: seq<Action>, s' | Reaches(s, as_, s') :: s'.received == s.received && StillQueued(s')
  }

  lemma {:induction false} WaiterNeverLaunches(s: State)
    requires Inv(s) && WaitsForever(s)
    ensures NeverLaunched(s)
  {
    forall as_: seq<Action>, s' | Reaches(s, as_, s')
      ensures s'.received == s.received && StillQueued(s')
    {
      StillWaits(s, as_, s');
    }
  }

  /** An oversized job is launched next if the manager is idle when its turn comes; if the manager
      is busy, neither it nor any job behind it is ever launched. */
  lemma {:induction false} OversizedNeedsIdleManager(s: State)
    requires Inv(s) && s.dispatcher == Test && CurrentJob(s).threads > s.maxThreads
    ensures s.currentThreads <= 0 ==> Do(s, Dispatch).dispatcher == Launch
    ensures s.currentThreads > 0 ==> NeverLaunched(Do(s, Dispatch))
  {
    if s.currentThreads > 0 {
      DispatcherKeeps(s);
      WaiterNeverLaunches(DoDispatch(s));
    }
  }

  // ---------- two jobs ----------

  /** A state after both jobs were scheduled. */
  function BothScheduled(rs: seq<Request>, received: nat, d: Dispatcher, threads: int, first: Status, second: Status): State
    requires received <= 2
  {
    State(4, CHANNEL_CAPACITY, [], rs, [first, second], {}, [0, 1][received..], received, Ready, d, threads, 2, false)
  }

  lemma {:induction false} BothCanBeScheduled(rs: seq<Request>)
    requires |rs| == 2
    ensures Reachable(4, rs, BothScheduled(rs, 0, Receive, 0, Queued, Queued))
  {
    var s0 := Init(4, rs);
    assert Reaches(s0, [], s0);
    ReachStep(4, rs, s0, Call);
    var s1 := s0.(todo := [rs[1]], jobs := [rs[0]], status := [Queued], caller := Sending);
    assert Do(s0, Call) == s1;
    ReachStep(4, rs, s1, Call);
    var s2 := s1.(channel := [0], caller := Adding);
    assert Do(s1, Call) == s2;
    ReachStep(4, rs, s2, Call);
    var s3 := s2.(waitCount := 1, caller := Ready);
    ReachStep(4, rs, s3, Call);
    var s4 := s3.(todo := [], jobs := rs, status := [Queued, Queued], caller := Sending);
    assert Do(s3, Call) == s4;
    ReachStep(4, rs, s4, Call);
    var s5 := s4.(channel := [0, 1], caller := Adding);
    assert Do(s4, Call) == s5;
    ReachStep(4, rs, s5, Call);
  }

  lemma {:induction false} FirstCanBeLaunched(rs: seq<Request>)
    requires |rs| == 2
    ensures Reachable(4, rs, BothScheduled(rs, 1, Unlock, rs[0].threads, Running, Queued))
  {
    BothCanBeScheduled(rs);
    ReachStep(4, rs, BothScheduled(rs, 0, Receive, 0, Queued, Queued), Dispatch);
    var s := BothScheduled(rs, 1, Check, 0, Queued, Queued);
    assert Do(BothScheduled(rs, 0, Receive, 0, Queued, Queued), Dispatch) == s;
    ReachStep(4, rs, s, Dispatch);
    ReachStep(4, rs, s.(dispatcher := Lock), Dispatch);
    ReachStep(4, rs, s.(dispatcher := Test), Dispatch);
    ReachStep(4, rs, s.(dispatcher := Launch), Dispatch);
    assert Do(s.(dispatcher := Launch), Dispatch) == BothScheduled(rs, 1, Unlock, rs[0].threads, Running, Queued);
  }

  lemma {:induction false} SecondCanBeTested(rs: seq<Request>)
    requires |rs| == 2
    ensures Reachable(4, rs, BothScheduled(rs, 2, Test, rs[0].threads, Running, Queued))
  {
    FirstCanBeLaunched(rs);
    var s := BothScheduled(rs, 1, Unlock, rs[0].threads, Running, Queued);
    ReachStep(4, rs, s, Dispatch);
    ReachStep(4, rs, s.(dispatcher := Receive), Dispatch);
    var t := BothScheduled(rs, 2, Check, rs[0].threads, Running, Queued);
    assert Do(s.(dispatcher := Receive), Dispatch) == t;
    ReachStep(4, rs, t, Dispatch);
    ReachStep(4, rs, t.(dispatcher := Lock), Dispatch);
  }

  const OVERSIZED: seq<Request> := [Request(1, false), Request(5, false)]

  /** That happens: with a limit of four, a job of five threads scheduled behind one that still runs
      is never launched. */
  lemma {:induction false} OversizedCanWaitForever()
    ensures exists s :: Reachable(4, OVERSIZED, s) && HoldsJob(s) && CurrentJob(s) == OVERSIZED[1] && NeverLaunched(s)
  {
    SecondCanBeTested(OVERSIZED);
    var busy := BothScheduled(OVERSIZED, 2, Test, 1, Running, Queued);
    ReachableInv(4, OVERSIZED, busy);
    OversizedNeedsIdleManager(busy);
    ReachStep(4, OVERSIZED, busy, Dispatch);
  }

  /** Jobs do run side by side: two that together need no more than the limit, and no barrier between,
      can be running at once. */
  lemma {:induction false} TwoCanRunAtOnce(one: Request, two: Request)
    requires one.threads >= 1 && two.threads >= 1 && one.threads + two.threads <= 4 && !two.isBarrier
    ensures exists s :: Reachable(4, [one, two], s) && s.jobs == [one, two] && s.status == [Running, Running]
  {
    var rs := [one, two];
    SecondCanBeTested(rs);
    var s := BothScheduled(rs, 2, Test, one.threads, Running, Queued);
    ReachStep(4, rs, s, Dispatch);
    ReachStep(4, rs, s.(dispatcher := Budget), Dispatch);
    var t := BothScheduled(rs, 2, Unlock, one.threads + two.threads, Running, Running);
    assert Do(s.(dispatcher := Launch), Dispatch) == t;
    ReachStep(4, rs, s.(dispatcher := Launch), Dispatch);
  }
}
