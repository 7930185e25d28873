/** The parallel job manager as a machine of interleaved threads: the caller that schedules, the
    dispatcher that Start launches, and one worker per started job. Each step of the machine is
    one step of one thread. */
module JobManager {

  /** One Schedule call, or ScheduleBarrier (which asks for one thread). */
  datatype Request = Request(threads: int, isBarrier: bool)

  /** Where a job is. Between Released and Finished its worker has given its threads back but has
      yet to report to the wait group (Released) or to broadcast (Reported). */
  datatype Status = Queued | Running | Failing | Returned | Released | Reported | Finished | Skipped

  /** The caller: ready for the next request, about to send the job it made, about to add it to the
      wait group, waiting for the jobs after DoneScheduling, reading the error, or done. */
  datatype Caller = Ready | Sending | Adding | Waiting | Reading | WaitReturned(ok: bool)

  /** The dispatcher. From Test to Unlock, except asleep or woken, it holds the mutex. */
  datatype Dispatcher =
    | Receive | Check | Lock
    | Test | Budget | BudgetAsleep | BudgetWoken
    | Fence | FenceAsleep | FenceWoken
    | Launch | Unlock
    | Skip | Drain | Exited

  datatype State = State(
    maxThreads: int,
    capacity: nat,
    todo: seq<Request>,
    jobs: seq<Request>,
    status: seq<Status>,
    erred: set<nat>,
    channel: seq<nat>,
    received: nat,
    caller: Caller,
    dispatcher: Dispatcher,
    currentThreads: int,
    waitCount: int,
    hasError: bool)

  const CHANNEL_CAPACITY: nat := 100

  function Init(maxThreads: int, todo: seq<Request>): State {
    State(maxThreads, CHANNEL_CAPACITY, todo, [], [], {}, [], 0, Ready, Receive, 0, 0, false)
  }

  /** Which thread moves; for a worker whose task returns, also whether with an error. */
  datatype Action = Call | Dispatch | Work(job: nat, err: bool)

  /** Only the dispatcher keeps the mutex across steps. */
  predicate MutexFree(s: State) {
    match s.dispatcher
    case Test | Budget | Fence | Launch | Unlock => false
    case _ => true
  }

  predicate Asleep(s: State) {
    s.dispatcher.BudgetAsleep? || s.dispatcher.FenceAsleep?
  }

  /** The channel is closed once the caller has called DoneScheduling. */
  predicate Closed(s: State) {
    s.caller.Waiting? || s.caller.Reading? || s.caller.WaitReturned?
  }

  predicate InHand(d: Dispatcher) {
    match d
    case Receive | Unlock | Drain | Exited => false
    case _ => true
  }

  /** The job in the dispatcher's hands. */
  predicate HoldsJob(s: State) {
    0 < s.received <= |s.jobs| == |s.status|
  }

  function CurrentJob(s: State): Request
    requires HoldsJob(s)
  {
    s.jobs[s.received - 1]
  }

  predicate Enabled(s: State, a: Action) {
    match a
    case Call => CallerEnabled(s)
    case Dispatch => DispatcherEnabled(s)
    case Work(i, err) => i < |s.jobs| == |s.status| && WorkerEnabled(s, i, err)
  }

  predicate CallerEnabled(s: State) {
    match s.caller
    case Ready => s.todo == [] || MutexFree(s)
    case Sending => |s.channel| < s.capacity
    case Adding => true
    case Waiting => s.waitCount == 0
    case Reading => MutexFree(s)
    case WaitReturned(_) => false
  }

  predicate DispatcherEnabled(s: State) {
    match s.dispatcher
    case Receive => s.channel != [] || Closed(s)
    case BudgetAsleep => false
    case FenceAsleep => false
    case Drain => s.waitCount == 0
    case Exited => false
    case Unlock => true
    case _ => HoldsJob(s)
  }

  predicate WorkerEnabled(s: State, i: nat, err: bool)
    requires i < |s.status|
  {
    match s.status[i]
    case Running => true
    case Failing => !err && MutexFree(s)
    case Returned => !err
    case Released => !err
    case Reported => !err && MutexFree(s)
    case _ => false
  }

  function Do(s: State, a: Action): State
    requires Enabled(s, a)
  {
    match a
    case Call => DoCall(s)
    case Dispatch => DoDispatch(s)
    case Work(i, err) => DoWork(s, i, err)
  }

  /** Schedule and ScheduleBarrier refuse once there is an error; otherwise the job gets the next
      index, is sent, and only then added to the wait group. */
  function DoCall(s: State): State
    requires CallerEnabled(s)
  {
    match s.caller
    case Ready =>
      if s.todo == [] then s.(caller := Waiting)
      else if s.hasError then s.(todo := s.todo[1..])
      else s.(todo := s.todo[1..], jobs := s.jobs + [s.todo[0]], status := s.status + [Queued], caller := Sending)
    case Sending => s.(channel := s.channel + [if s.jobs == [] then 0 else |s.jobs| - 1], caller := Adding)
    case Adding => s.(waitCount := s.waitCount + 1, caller := Ready)
    case Waiting => s.(caller := Reading)
    case Reading => s.(caller := WaitReturned(!s.hasError))
  }

  function DoDispatch(s: State): State
    requires DispatcherEnabled(s)
  {
    match s.dispatcher
    case Receive =>
      if s.channel != [] then s.(channel := s.channel[1..], received := s.received + 1, dispatcher := Check)
      else s.(dispatcher := Drain)
    case Check => s.(dispatcher := if s.hasError then Skip else Lock)
    case Lock => s.(dispatcher := Test)
    case Test => s.(dispatcher := if s.currentThreads > 0 then Budget else Launch)
    case Budget =>
      s.(dispatcher :=
        if s.currentThreads + CurrentJob(s).threads > s.maxThreads then BudgetAsleep
        else if CurrentJob(s).isBarrier then Fence
        else Launch)
    case BudgetWoken => s.(dispatcher := Budget)
    case Fence => s.(dispatcher := if s.currentThreads > 0 then FenceAsleep else Launch)
    case FenceWoken => s.(dispatcher := Fence)
    case Launch =>
      s.(currentThreads := s.currentThreads + CurrentJob(s).threads,
         status := s.status[s.received - 1 := Running],
         dispatcher := Unlock)
    case Unlock => s.(dispatcher := Receive)
    case Skip => s.(waitCount := s.waitCount - 1, status := s.status[s.received - 1 := Skipped], dispatcher := Receive)
    case Drain => s.(dispatcher := Exited)
    case _ => s
  }

  /** The subtraction from currentThreads happens outside the mutex; it is one step here. */
  function DoWork(s: State, i: nat, err: bool): State
    requires i < |s.jobs| == |s.status| && WorkerEnabled(s, i, err)
  {
    match s.status[i]
    case Running =>
      if err then s.(status := s.status[i := Failing], erred := s.erred + {i})
      else s.(status := s.status[i := Returned])
    case Failing => s.(status := s.status[i := Returned], hasError := true)
    case Returned => s.(status := s.status[i := Released], currentThreads := s.currentThreads - s.jobs[i].threads)
    case Released => s.(status := s.status[i := Reported], waitCount := s.waitCount - 1)
    case Reported => Broadcast(s).(status := s.status[i := Finished])
    case _ => s
  }

  function Broadcast(s: State): State {
    match s.dispatcher
    case BudgetAsleep => s.(dispatcher := BudgetWoken)
    case FenceAsleep => s.(dispatcher := FenceWoken)
    case _ => s
  }

  ghost predicate Reaches(s: State, as_: seq<Action>, s': State)
    decreases |as_|
  {
    if as_ == [] then s == s'
    else Enabled(s, as_[0]) && Reaches(Do(s, as_[0]), as_[1..], s')
  }

  // ---------- what every reachable state satisfies ----------

  /** Its threads are counted in currentThreads. */
  predicate Active(st: Status) {
    st.Running? || st.Failing? || st.Returned?
  }

  /** Its worker or the dispatcher has reported it to the wait group. */
  predicate Retired(st: Status) {
    st.Reported? || st.Finished? || st.Skipped?
  }

  function ActiveThreads(jobs: seq<Request>, status: seq<Status>): int
    requires |jobs| == |status|
  {
    if status == [] then 0
    else
      var n := |status| - 1;
      ActiveThreads(jobs[..n], status[..n]) + if Active(status[n]) then jobs[n].threads else 0
  }

  function CountRetired(status: seq<Status>): nat {
    if status == [] then 0
    else CountRetired(status[..|status| - 1]) + if Retired(status[|status| - 1]) then 1 else 0
  }

  /** The jobs sent to the channel so far. */
  function Sent(s: State): int {
    if s.caller.Sending? then |s.jobs| - 1 else |s.jobs|
  }

  /** The jobs the dispatcher has launched or skipped. */
  function Handled(s: State): int {
    if InHand(s.dispatcher) then s.received - 1 else s.received
  }

  /** The channel holds the jobs sent and not yet received, in order. */
  ghost predicate QueueInv(s: State) {
    && |s.status| == |s.jobs|
    && 0 <= Handled(s) <= s.received <= Sent(s)
    && |s.channel| == Sent(s) - s.received <= s.capacity
    && (forall k | 0 <= k < |s.channel| :: s.channel[k] == s.received + k)
    && (forall i | 0 <= i < |s.status| :: s.status[i] == Queued <==> i >= Handled(s))
    && (Closed(s) ==> s.todo == [])
    && (s.dispatcher.Drain? || s.dispatcher.Exited? ==> Closed(s) && s.channel == [])
  }

  /** The wait group counts the jobs sent and not yet retired, less the one whose Add is to come. */
  ghost predicate CountInv(s: State)
    requires QueueInv(s)
  {
    && s.waitCount == Sent(s) - CountRetired(s.status) - (if s.caller.Adding? then 1 else 0)
    && s.currentThreads == ActiveThreads(s.jobs, s.status)
    && ((s.caller.Reading? || s.caller.WaitReturned?) ==> CountRetired(s.status) == |s.jobs|)
    && (s.dispatcher.Exited? ==> CountRetired(s.status) == |s.jobs|)
  }

  /** An error is stored exactly when some task's error has been; Wait reports it. */
  ghost predicate ErrorInv(s: State)
    requires QueueInv(s)
  {
    && (forall i | i in s.erred :: i < |s.jobs| && !s.status[i].Queued? && !s.status[i].Running? && !s.status[i].Skipped?)
    && (forall i | i in s.erred :: s.status[i] == Failing || s.hasError)
    && (forall i | 0 <= i < |s.status| && s.status[i] == Failing :: i in s.erred)
    && (s.hasError ==> s.erred != {})
    && (s.caller.WaitReturned? ==> (s.caller.ok <==> !s.hasError))
  }

  /** Jobs are skipped only after an error, and after a skipped job all are skipped. */
  ghost predicate SkipInv(s: State)
    requires QueueInv(s)
  {
    && (forall i, j | 0 <= i < j < |s.status| && s.status[i] == Skipped :: s.status[j].Queued? || s.status[j].Skipped?)
    && (forall i | 0 <= i < |s.status| && s.status[i] == Skipped :: s.hasError)
    && (s.dispatcher == Skip ==> s.hasError)
    && (InHand(s.dispatcher) && !s.dispatcher.Check? && !s.dispatcher.Skip? ==> forall i | 0 <= i < |s.status| :: s.status[i] != Skipped)
  }

  /** Once a barrier has been launched, no job before it is active. */
  ghost predicate BarrierInv(s: State)
    requires QueueInv(s)
  {
    && (forall b, i | 0 <= i < b < |s.status| && s.jobs[b].isBarrier && !s.status[b].Queued? && !s.status[b].Skipped? :: !Active(s.status[i]))
    && (s.dispatcher == Launch && CurrentJob(s).isBarrier ==> s.currentThreads == 0)
  }

  ghost predicate PositiveThreads(s: State) {
    && (forall i | 0 <= i < |s.jobs| :: s.jobs[i].threads >= 1)
    && (forall i | 0 <= i < |s.todo| :: s.todo[i].threads >= 1)
  }

  ghost predicate OnlyActive(s: State, i: nat) {
    i < |s.status| && Active(s.status[i]) && forall j | 0 <= j < |s.status| && j != i :: !Active(s.status[j])
  }

  /** The budget holds, or one oversized job runs alone. */
  ghost predicate BudgetInv(s: State) {
    s.currentThreads <= s.maxThreads || s.currentThreads == 0 || exists i :: OnlyActive(s, i)
  }

  /** Past its checks the dispatcher's job still fits. */
  ghost predicate RoomInv(s: State)
    requires QueueInv(s)
  {
    match s.dispatcher
    case Launch => s.currentThreads == 0 || s.currentThreads + CurrentJob(s).threads <= s.maxThreads
    case Fence | FenceAsleep | FenceWoken => s.currentThreads + CurrentJob(s).threads <= s.maxThreads
    case _ => true
  }

  /** What the dispatcher waits for, asleep. */
  predicate WaitIsOver(s: State)
    requires HoldsJob(s)
  {
    if s.dispatcher == BudgetAsleep then s.currentThreads + CurrentJob(s).threads <= s.maxThreads
    else s.currentThreads <= 0
  }

  predicate Leaving(st: Status) {
    st.Released? || st.Reported?
  }

  ghost predicate WakeupComing(s: State) {
    exists i :: 0 <= i < |s.status| && Leaving(s.status[i])
  }

  /** No wakeup is lost: when the dispatcher sleeps although its wait is over, a worker stands
      between its subtraction and its broadcast. */
  ghost predicate WakeInv(s: State)
    requires QueueInv(s)
  {
    Asleep(s) && WaitIsOver(s) ==> WakeupComing(s)
  }

  ghost predicate Inv(s: State) {
    QueueInv(s) && CountInv(s) && ErrorInv(s) && SkipInv(s) && BarrierInv(s) && BudgetInv(s) && RoomInv(s) && WakeInv(s) && PositiveThreads(s)
  }

  // ---------- sums over the jobs ----------

  lemma {:induction false} ActiveThreadsUpdate(jobs: seq<Request>, status: seq<Status>, i: nat, st: Status)
    requires i < |jobs| == |status|
    ensures ActiveThreads(jobs, status[i := st]) == ActiveThreads(jobs, status)
              - (if Active(status[i]) then jobs[i].threads else 0) + (if Active(st) then jobs[i].threads else 0)
  {
    var n := |status| - 1;
    if i < n {
      assert status[i := st][..n] == status[..n][i := st];
      ActiveThreadsUpdate(jobs[..n], status[..n], i, st);
    } else {
      assert status[i := st][..n] == status[..n];
    }
  }

  lemma {:induction false} CountRetiredUpdate(status: seq<Status>, i: nat, st: Status)
    requires i < |status|
    ensures CountRetired(status[i := st]) == CountRetired(status)
              - (if Retired(status[i]) then 1 else 0) + (if Retired(st) then 1 else 0)
  {
    var n := |status| - 1;
    if i < n {
      assert status[i := st][..n] == status[..n][i := st];
      CountRetiredUpdate(status[..n], i, st);
    } else {
      assert status[i := st][..n] == status[..n];
    }
  }

  lemma {:induction false} CountRetiredBound(status: seq<Status>)
    ensures CountRetired(status) <= |status|
    ensures CountRetired(status) == |status| <==> forall i | 0 <= i < |status| :: Retired(status[i])
  {
    if status != [] {
      var n := |status| - 1;
      CountRetiredBound(status[..n]);
      assert forall i | 0 <= i < n :: status[..n][i] == status[i];
    }
  }

  /** The sum is zero exactly when no job is active, and one active job alone makes the sum. */
  lemma {:induction false} ActiveThreadsMeaning(jobs: seq<Request>, status: seq<Status>)
    requires |jobs| == |status| && forall i | 0 <= i < |jobs| :: jobs[i].threads >= 1
    ensures ActiveThreads(jobs, status) >= 0
    ensures ActiveThreads(jobs, status) == 0 <==> forall i | 0 <= i < |status| :: !Active(status[i])
    ensures forall i | 0 <= i < |status| && Active(status[i]) :: ActiveThreads(jobs, status) >= jobs[i].threads
  {
    if status != [] {
      var n := |status| - 1;
      ActiveThreadsMeaning(jobs[..n], status[..n]);
      assert forall i | 0 <= i < n :: status[..n][i] == status[i] && jobs[..n][i] == jobs[i];
    }
  }

  // ---------- every step keeps the invariant ----------

  lemma {:induction false} InitInv(maxThreads: int, todo: seq<Request>)
    requires forall i | 0 <= i < |todo| :: todo[i].threads >= 1
    ensures Inv(Init(maxThreads, todo))
  {
  }

  lemma {:induction false} CallKeepsQueue(s: State)
    requires QueueInv(s) && PositiveThreads(s) && CallerEnabled(s)
    ensures QueueInv(DoCall(s)) && PositiveThreads(DoCall(s))
  {
  }

  lemma {:induction false} CallKeepsCount(s: State)
    requires QueueInv(s) && CountInv(s) && CallerEnabled(s) && QueueInv(DoCall(s))
    ensures CountInv(DoCall(s))
  {
    var s' := DoCall(s);
    if s.caller.Ready? && s.todo != [] && !s.hasError {
      assert s'.status[..|s.status|] == s.status && s'.jobs[..|s.status|] == s.jobs;
    }
  }

  /** A new job is queued behind the others, which stay as they are. */
  lemma {:induction false} CallExtends(s: State)
    requires QueueInv(s) && CallerEnabled(s) && QueueInv(DoCall(s))
    ensures var s' := DoCall(s);
            && |s.status| <= |s'.status|
            && (forall i | 0 <= i < |s.status| :: s'.status[i] == s.status[i] && s'.jobs[i] == s.jobs[i])
            && (forall i | |s.status| <= i < |s'.status| :: s'.status[i] == Queued)
            && s'.dispatcher == s.dispatcher && s'.received == s.received && s'.currentThreads == s.currentThreads
            && s'.hasError == s.hasError && s'.erred == s.erred && s'.maxThreads == s.maxThreads
  {
  }

  lemma {:induction false} CallKeepsError(s: State)
    requires QueueInv(s) && ErrorInv(s) && SkipInv(s) && CallerEnabled(s) && QueueInv(DoCall(s))
    ensures ErrorInv(DoCall(s)) && SkipInv(DoCall(s))
  {
    CallExtends(s);
  }

  lemma {:induction false} CallKeepsBarrier(s: State)
    requires QueueInv(s) && BarrierInv(s) && CallerEnabled(s) && QueueInv(DoCall(s))
    ensures BarrierInv(DoCall(s))
  {
    CallExtends(s);
  }

  lemma {:induction false} CallKeepsBudget(s: State)
    requires QueueInv(s) && BudgetInv(s) && CallerEnabled(s) && QueueInv(DoCall(s))
    ensures BudgetInv(DoCall(s))
  {
    CallExtends(s);
    if i :| OnlyActive(s, i) {
      assert OnlyActive(DoCall(s), i);
    }
  }

  lemma {:induction false} CallKeepsWake(s: State)
    requires QueueInv(s) && RoomInv(s) && WakeInv(s) && CallerEnabled(s) && QueueInv(DoCall(s))
    ensures RoomInv(DoCall(s)) && WakeInv(DoCall(s))
  {
    CallExtends(s);
    if i :| 0 <= i < |s.status| && Leaving(s.status[i]) {
      assert Leaving(DoCall(s).status[i]);
    }
  }

  lemma {:induction false} ReceiveKeepsQueue(s: State)
    requires QueueInv(s) && s.dispatcher.Receive? && DispatcherEnabled(s)
    ensures QueueInv(DoDispatch(s))
  {
  }

  /** Launching or skipping takes the next job out of the queue. */
  lemma {:induction false} SettleKeepsQueue(s: State)
    requires QueueInv(s) && (s.dispatcher.Launch? || s.dispatcher.Skip?) && DispatcherEnabled(s)
    ensures QueueInv(DoDispatch(s))
  {
  }

  /** In every other step only the dispatcher itself moves. */
  predicate OnlyMoves(d: Dispatcher) {
    !d.Receive? && !d.Launch? && !d.Skip?
  }

  lemma {:induction false} MoveKeepsQueue(s: State)
    requires QueueInv(s) && OnlyMoves(s.dispatcher) && DispatcherEnabled(s)
    ensures QueueInv(DoDispatch(s)) && DoDispatch(s).(dispatcher := s.dispatcher) == s
  {
  }

  lemma {:induction false} DispatchKeepsQueue(s: State)
    requires QueueInv(s) && PositiveThreads(s) && DispatcherEnabled(s)
    ensures QueueInv(DoDispatch(s)) && PositiveThreads(DoDispatch(s))
  {
    if OnlyMoves(s.dispatcher) {
      MoveKeepsQueue(s);
    } else if s.dispatcher.Receive? {
      ReceiveKeepsQueue(s);
    } else {
      SettleKeepsQueue(s);
    }
    assert DoDispatch(s).jobs == s.jobs && DoDispatch(s).todo == s.todo;
  }

  lemma {:induction false} LaunchKeepsCount(s: State)
    requires QueueInv(s) && CountInv(s) && s.dispatcher == Launch && QueueInv(DoDispatch(s))
    ensures CountInv(DoDispatch(s))
  {
    var j := s.received - 1;
    assert s.status[j] == Queued;
    ActiveThreadsUpdate(s.jobs, s.status, j, Running);
    CountRetiredUpdate(s.status, j, Running);
  }

  lemma {:induction false} SkipKeepsCount(s: State)
    requires QueueInv(s) && CountInv(s) && s.dispatcher == Skip && QueueInv(DoDispatch(s))
    ensures CountInv(DoDispatch(s))
  {
    var j := s.received - 1;
    CountRetiredBound(s.status);
    assert s.status[j] == Queued && !Retired(s.status[j]);
    ActiveThreadsUpdate(s.jobs, s.status, j, Skipped);
    CountRetiredUpdate(s.status, j, Skipped);
  }

  lemma {:induction false} DispatchKeepsCount(s: State)
    requires QueueInv(s) && CountInv(s) && DispatcherEnabled(s) && QueueInv(DoDispatch(s))
    ensures CountInv(DoDispatch(s))
  {
    if s.dispatcher == Launch {
      LaunchKeepsCount(s);
    } else if s.dispatcher == Skip {
      SkipKeepsCount(s);
    }
  }

  lemma {:induction false} SettleKeepsError(s: State)
    requires QueueInv(s) && ErrorInv(s) && SkipInv(s) && DispatcherEnabled(s) && QueueInv(DoDispatch(s))
    requires s.dispatcher.Launch? || s.dispatcher.Skip?
    ensures ErrorInv(DoDispatch(s)) && SkipInv(DoDispatch(s))
  {
    var j := s.received - 1;
    assert s.status[j] == Queued && forall i | j < i < |s.status| :: s.status[i] == Queued;
  }

  lemma {:induction false} DispatchKeepsError(s: State)
    requires QueueInv(s) && ErrorInv(s) && SkipInv(s) && DispatcherEnabled(s) && QueueInv(DoDispatch(s))
    ensures ErrorInv(DoDispatch(s)) && SkipInv(DoDispatch(s))
  {
    if s.dispatcher.Launch? || s.dispatcher.Skip? {
      SettleKeepsError(s);
    } else if OnlyMoves(s.dispatcher) {
      MoveKeepsQueue(s);
    }
  }

  lemma {:induction false} SettleKeepsBarrier(s: State)
    requires QueueInv(s) && CountInv(s) && BarrierInv(s) && PositiveThreads(s) && DispatcherEnabled(s) && QueueInv(DoDispatch(s))
    requires s.dispatcher.Launch? || s.dispatcher.Skip?
    ensures BarrierInv(DoDispatch(s))
  {
    ActiveThreadsMeaning(s.jobs, s.status);
  }

  lemma {:induction false} DispatchKeepsBarrier(s: State)
    requires QueueInv(s) && CountInv(s) && BarrierInv(s) && PositiveThreads(s) && DispatcherEnabled(s) && QueueInv(DoDispatch(s))
    ensures BarrierInv(DoDispatch(s))
  {
    if s.dispatcher.Launch? || s.dispatcher.Skip? {
      SettleKeepsBarrier(s);
    } else {
      ActiveThreadsMeaning(s.jobs, s.status);
    }
  }

  lemma {:induction false} DispatchKeepsRoom(s: State)
    requires QueueInv(s) && RoomInv(s) && DispatcherEnabled(s) && QueueInv(DoDispatch(s))
    requires s.currentThreads >= 0
    ensures RoomInv(DoDispatch(s))
  {
  }

  lemma {:induction false} DispatchKeepsBudget(s: State)
    requires QueueInv(s) && CountInv(s) && BudgetInv(s) && RoomInv(s) && PositiveThreads(s) && DispatcherEnabled(s)
    requires QueueInv(DoDispatch(s))
    ensures BudgetInv(DoDispatch(s))
  {
    var s' := DoDispatch(s);
    if s.dispatcher == Launch {
      if s.currentThreads == 0 {
        ActiveThreadsMeaning(s.jobs, s.status);
        assert OnlyActive(s', s.received - 1);
      }
    } else if i :| OnlyActive(s, i) {
      assert s.dispatcher != Skip ==> s'.status == s.status;
      assert OnlyActive(s', i);
    }
  }

  lemma {:induction false} DispatchKeepsWake(s: State)
    requires QueueInv(s) && WakeInv(s) && DispatcherEnabled(s) && QueueInv(DoDispatch(s))
    ensures WakeInv(DoDispatch(s))
  {
  }

  lemma {:induction false} WorkKeepsQueue(s: State, i: nat, err: bool)
    requires QueueInv(s) && PositiveThreads(s) && i < |s.status| && WorkerEnabled(s, i, err)
    ensures QueueInv(DoWork(s, i, err)) && PositiveThreads(DoWork(s, i, err))
  {
  }

  lemma {:induction false} WorkKeepsCount(s: State, i: nat, err: bool)
    requires QueueInv(s) && CountInv(s) && i < |s.status| && WorkerEnabled(s, i, err) && QueueInv(DoWork(s, i, err))
    ensures CountInv(DoWork(s, i, err))
  {
    var s' := DoWork(s, i, err);
    var st := s'.status[i];
    assert s'.status == s.status[i := st] && s'.jobs == s.jobs && Sent(s') == Sent(s) && s'.caller == s.caller;
    ActiveThreadsUpdate(s.jobs, s.status, i, st);
    CountRetiredUpdate(s.status, i, st);
    CountRetiredBound(s.status);
    CountRetiredBound(s'.status);
    assert !Retired(s.status[i]) ==> CountRetired(s.status) < |s.status|;
  }

  lemma {:induction false} WorkKeepsSkip(s: State, i: nat, err: bool)
    requires QueueInv(s) && SkipInv(s) && i < |s.status| && WorkerEnabled(s, i, err) && QueueInv(DoWork(s, i, err))
    ensures SkipInv(DoWork(s, i, err))
  {
  }

  lemma {:induction false} WorkKeepsError(s: State, i: nat, err: bool)
    requires QueueInv(s) && ErrorInv(s) && i < |s.status| && WorkerEnabled(s, i, err) && QueueInv(DoWork(s, i, err))
    requires s.caller.WaitReturned? ==> Retired(s.status[i])
    ensures ErrorInv(DoWork(s, i, err))
  {
  }

  lemma {:induction false} WorkKeepsBarrier(s: State, i: nat, err: bool)
    requires QueueInv(s) && CountInv(s) && BarrierInv(s) && PositiveThreads(s) && i < |s.status| && WorkerEnabled(s, i, err)
    requires QueueInv(DoWork(s, i, err))
    ensures BarrierInv(DoWork(s, i, err))
  {
    ActiveThreadsMeaning(s.jobs, s.status);
  }

  lemma {:induction false} WorkKeepsRoom(s: State, i: nat, err: bool)
    requires QueueInv(s) && RoomInv(s) && PositiveThreads(s) && i < |s.status| && WorkerEnabled(s, i, err) && QueueInv(DoWork(s, i, err))
    requires DoWork(s, i, err).currentThreads >= 0
    ensures RoomInv(DoWork(s, i, err))
  {
  }

  lemma {:induction false} WorkKeepsBudget(s: State, i: nat, err: bool)
    requires QueueInv(s) && BudgetInv(s) && PositiveThreads(s) && i < |s.status| && WorkerEnabled(s, i, err)
    requires var s' := DoWork(s, i, err); QueueInv(s') && CountInv(s') && PositiveThreads(s')
    ensures BudgetInv(DoWork(s, i, err))
    ensures DoWork(s, i, err).currentThreads >= 0
  {
    var s' := DoWork(s, i, err);
    ActiveThreadsMeaning(s'.jobs, s'.status);
    if k :| OnlyActive(s, k) {
      if k == i && s.status[i] == Returned {
        assert forall j | 0 <= j < |s'.status| :: !Active(s'.status[j]);
      } else {
        assert OnlyActive(s', k);
      }
    }
  }

  lemma {:induction false} WorkKeepsWake(s: State, i: nat, err: bool)
    requires QueueInv(s) && WakeInv(s) && i < |s.status| && WorkerEnabled(s, i, err) && QueueInv(DoWork(s, i, err))
    ensures WakeInv(DoWork(s, i, err))
  {
    var s' := DoWork(s, i, err);
    if s.status[i].Returned? || s.status[i].Released? {
      assert Leaving(s'.status[i]);
    } else if k :| 0 <= k < |s.status| && k != i && Leaving(s.status[k]) {
      assert s'.status[k] == s.status[k];
    }
  }

  /** Every step of every thread keeps the invariant. */
  lemma {:induction false} CallerKeeps(s: State)
    requires Inv(s) && CallerEnabled(s)
    ensures Inv(DoCall(s))
  {
    CallKeepsQueue(s);
    CallKeepsCount(s);
    CallKeepsError(s);
    CallKeepsBarrier(s);
    CallKeepsBudget(s);
    CallKeepsWake(s);
  }

  lemma {:induction false} DispatcherKeeps(s: State)
    requires Inv(s) && DispatcherEnabled(s)
    ensures Inv(DoDispatch(s))
  {
    DispatchKeepsQueue(s);
    DispatchKeepsCount(s);
    DispatchKeepsError(s);
    DispatchKeepsBarrier(s);
    ActiveThreadsMeaning(s.jobs, s.status);
    DispatchKeepsRoom(s);
    DispatchKeepsBudget(s);
    DispatchKeepsWake(s);
  }

  lemma {:induction false} WorkerKeeps(s: State, i: nat, err: bool)
    requires Inv(s) && i < |s.status| && WorkerEnabled(s, i, err)
    ensures Inv(DoWork(s, i, err))
  {
    WorkKeepsQueue(s, i, err);
    WorkKeepsCount(s, i, err);
    WorkKeepsSkip(s, i, err);
    CountRetiredBound(s.status);
    WorkKeepsError(s, i, err);
    WorkKeepsBarrier(s, i, err);
    WorkKeepsBudget(s, i, err);
    WorkKeepsRoom(s, i, err);
    WorkKeepsWake(s, i, err);
  }

  lemma {:induction false} StepKeeps(s: State, a: Action)
    requires Inv(s) && Enabled(s, a)
    ensures Inv(Do(s, a))
  {
    match a {
      case Call => CallerKeeps(s);
      case Dispatch => DispatcherKeeps(s);
      case Work(i, err) => WorkerKeeps(s, i, err);
    }
  }
}
