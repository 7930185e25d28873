/** A whole Sync call: the walk's jobs on the job manager, the tasks' remote calls interleaved. */
module SyncRuns {
  import opened Trees
  import opened Overlay
  import opened OverlayLaws
  import opened Walk
  import opened SyncTasks
  import opened SyncInOrder
  import opened SyncRace
  import opened JobManager
  import opened JobRuns

  /** The manager, the store, how far each job's task is, and the paths of tasks that failed. */
  datatype World = World(manager: State, remote: Remote, locals: seq<Local>, failed: set<Path>)

  const SYNC_THREADS := 4

  function Requests(plan: seq<Job>): seq<Request>
    ensures |Requests(plan)| == |plan|
    ensures forall i | 0 <= i < |plan| :: Requests(plan)[i] == Request(1, plan[i].Barrier?)
  {
    if plan == [] then [] else [Request(1, plan[0].Barrier?)] + Requests(plan[1..])
  }

  function Locals(plan: seq<Job>): seq<Local> {
    seq(|plan|, i requires 0 <= i < |plan| => if plan[i].Sync? then Start else Done)
  }

  function Begin(plan: seq<Job>, r0: Remote): World {
    World(Init(SYNC_THREADS, Requests(plan)), r0, Locals(plan), {})
  }

  /** A step of the manager; a successful remote call of task i; or the failure of task i, which
      ends it with any change to its subtree. */
  datatype Event = Manage(a: Action) | RemoteCall(i: nat, l: Local, r: Remote) | TaskFails(i: nat, r: Remote)

  predicate TaskRuns(plan: seq<Job>, w: World, i: nat) {
    i < |plan| && i < |w.manager.status| && i < |w.locals| && w.manager.status[i].Running? && plan[i].Sync?
  }

  /** A worker returns when its task is done, and then without an error: the tasks log theirs. */
  predicate MayReturn(w: World, a: Action) {
    a.Work? && a.job < |w.manager.status| && w.manager.status[a.job].Running? ==>
      !a.err && a.job < |w.locals| && w.locals[a.job] == Done
  }

  ghost predicate CanDo(plan: seq<Job>, w: World, e: Event) {
    match e
    case Manage(a) => Enabled(w.manager, a) && MayReturn(w, a)
    case RemoteCall(i, l, r) => TaskRuns(plan, w, i) && Step(plan[i].task, plan[i].path, w.locals[i], w.remote, l, r)
    case TaskFails(i, r) => TaskRuns(plan, w, i) && w.locals[i] != Done && Touches(plan[i].path, w.remote, r)
  }

  ghost function After(plan: seq<Job>, w: World, e: Event): World
    requires CanDo(plan, w, e)
  {
    match e
    case Manage(a) => w.(manager := Do(w.manager, a))
    case RemoteCall(i, l, r) => w.(locals := w.locals[i := l], remote := r)
    case TaskFails(i, r) => w.(locals := w.locals[i := Done], remote := r, failed := w.failed + {plan[i].path})
  }

  ghost predicate Run(plan: seq<Job>, w: World, es: seq<Event>, w': World)
    decreases |es|
  {
    if es == [] then w == w'
    else CanDo(plan, w, es[0]) && Run(plan, After(plan, w, es[0]), es[1..], w')
  }

  // ---------- the invariant ----------

  /** The manager works through the plan and has met no error. */
  ghost predicate ManagerInv(plan: seq<Job>, m: State) {
    && Inv(m) && m.maxThreads == SYNC_THREADS && m.capacity == CHANNEL_CAPACITY
    && !m.hasError && m.erred == {}
    && m.jobs + m.todo == Requests(plan)
  }

  /** Only launched jobs have begun, and only running ones are part way through. */
  ghost predicate LocalsInv(plan: seq<Job>, w: World)
    requires ManagerInv(plan, w.manager)
  {
    && |w.locals| == |plan|
    && (forall i | 0 <= i < |plan| && plan[i].Barrier? :: w.locals[i] == Done)
    && (forall i | 0 <= i < |plan| && plan[i].Sync? && i >= Handled(w.manager) :: w.locals[i] == Start)
    && (forall i | 0 <= i < Handled(w.manager) && w.locals[i] != Done :: w.manager.status[i].Running?)
    && (forall f | f in w.failed :: exists m :: 0 <= m < Handled(w.manager) && m < |plan| && plan[m].Sync? && plan[m].path == f)
  }

  ghost predicate WorldInv(plan: seq<Job>, r0: Remote, w: World) {
    && ManagerInv(plan, w.manager) && LocalsInv(plan, w)
    && 0 <= Handled(w.manager) <= |plan|
    && Settled(plan, w.locals, Handled(w.manager), w.failed, w.remote, r0)
    && Underway(plan, w.locals, Handled(w.manager), w.failed, w.remote, r0)
  }

  /** Jobs launched while task i is still busy lie apart from it: no barrier has passed it. */
  lemma {:induction false} BusyTasksApart(plan: seq<Job>, w: World, i: nat, j: nat)
    requires WellQueued(plan) && ManagerInv(plan, w.manager) && LocalsInv(plan, w)
    requires i < j <= Handled(w.manager) && j < |plan| && plan[i].Sync? && plan[j].Sync? && w.locals[i] != Done
    ensures Apart(plan[i].path, plan[j].path)
  {
    var m := w.manager;
    if b: nat :| i < b < j && b < |plan| && plan[b] == Barrier {
      assert m.jobs[b] == Requests(plan)[b];
      assert m.jobs[b].isBarrier && m.status[b] != Queued && m.status[b] != Skipped;
      assert Active(m.status[i]);
      assert false;
    }
    EpochsAreDisjoint(plan, i, j);
  }

  lemma {:induction false} AllBusyApart(plan: seq<Job>, w: World, i: nat)
    requires WellQueued(plan) && ManagerInv(plan, w.manager) && LocalsInv(plan, w)
    requires i < |plan| && plan[i].Sync? && i <= Handled(w.manager) <= |plan|
    requires i < Handled(w.manager) ==> w.locals[i] != Done
    ensures BusyApart(plan, w.locals, Handled(w.manager), i)
  {
    forall j: nat | Busy(w.locals, Handled(w.manager), j) && plan[j].Sync? && j != i
      ensures Apart(plan[j].path, plan[i].path)
    {
      if j < i {
        BusyTasksApart(plan, w, j, i);
      } else {
        BusyTasksApart(plan, w, i, j);
      }
    }
  }

  lemma {:induction false} BeginInv(plan: seq<Job>, r0: Remote)
    ensures WorldInv(plan, r0, Begin(plan, r0))
  {
    InitInv(SYNC_THREADS, Requests(plan));
    NothingLaunched(plan, Locals(plan), r0);
  }

  lemma {:induction false} NothingLaunched(plan: seq<Job>, locals: seq<Local>, r0: Remote)
    ensures Settled(plan, locals, 0, {}, r0, r0) && Underway(plan, locals, 0, {}, r0, r0)
  {
    assert plan[..0] == [];
    assert Ideal(plan, 0, r0) == r0;
  }

  lemma {:induction false} CallStep(plan: seq<Job>, m: State)
    requires m.jobs + m.todo == Requests(plan) && !m.hasError && CallerEnabled(m)
    ensures var m' := DoCall(m); !m'.hasError && m'.jobs + m'.todo == Requests(plan)
  {
    if m.caller.Ready? && m.todo != [] {
      assert m.jobs + [m.todo[0]] + m.todo[1..] == m.jobs + m.todo;
    }
  }

  lemma {:induction false} WorkStep(m: State, i: nat, err: bool)
    requires QueueInv(m) && ErrorInv(m) && !m.hasError && m.erred == {}
    requires i < |m.status| && WorkerEnabled(m, i, err) && (m.status[i].Running? ==> !err)
    ensures !DoWork(m, i, err).hasError && DoWork(m, i, err).erred == {}
  {
    assert m.status[i].Failing? ==> i in m.erred;
  }

  lemma {:induction false} ManagerStep(plan: seq<Job>, m: State, a: Action)
    requires ManagerInv(plan, m) && Enabled(m, a)
    requires a.Work? && m.status[a.job].Running? ==> !a.err
    ensures ManagerInv(plan, Do(m, a))
  {
    StepKeeps(m, a);
    match a {
      case Call => CallStep(plan, m);
      case Dispatch =>
      case Work(i, err) => WorkStep(m, i, err);
    }
  }

  predicate Launches(m: State, a: Action) {
    a == Dispatch && m.dispatcher.Launch?
  }

  /** A launch moves one job on; apart from it a step changes at most its own worker's job. */
  lemma {:induction false} LaunchedJobs(m: State, a: Action)
    requires QueueInv(m) && Enabled(m, a) && QueueInv(Do(m, a)) && (m.dispatcher == Skip ==> m.hasError) && !m.hasError
    ensures var m' := Do(m, a);
            && Handled(m') == Handled(m) + (if Launches(m, a) then 1 else 0)
            && (forall i | 0 <= i < Handled(m) && !(a.Work? && a.job == i) :: m'.status[i] == m.status[i])
            && (Launches(m, a) ==> m'.status[Handled(m)].Running?)
  {
  }

  lemma {:induction false} ManageKeepsLocals(plan: seq<Job>, w: World, a: Action)
    requires ManagerInv(plan, w.manager) && LocalsInv(plan, w) && CanDo(plan, w, Manage(a))
    requires ManagerInv(plan, Do(w.manager, a))
    ensures LocalsInv(plan, After(plan, w, Manage(a)))
  {
    LaunchedJobs(w.manager, a);
  }

  lemma {:induction false} ManageKeeps(plan: seq<Job>, r0: Remote, w: World, a: Action)
    requires WellQueued(plan) && WellFormed(r0) && WorldInv(plan, r0, w) && CanDo(plan, w, Manage(a))
    ensures WorldInv(plan, r0, After(plan, w, Manage(a)))
  {
    var k := Handled(w.manager);
    ManagerStep(plan, w.manager, a);
    ManageKeepsLocals(plan, w, a);
    LaunchedJobs(w.manager, a);
    if Launches(w.manager, a) {
      assert k < |plan|;
      if plan[k].Sync? {
        AllBusyApart(plan, w, k);
      }
      LaunchKeeps(plan, w.locals, k, w.failed, w.remote, r0);
    }
  }

  lemma {:induction false} TaskEventKeepsLocals(plan: seq<Job>, w: World, e: Event)
    requires ManagerInv(plan, w.manager) && LocalsInv(plan, w) && 0 <= Handled(w.manager) <= |plan|
    requires CanDo(plan, w, e) && !e.Manage?
    ensures Busy(w.locals, Handled(w.manager), e.i)
    ensures ManagerInv(plan, After(plan, w, e).manager) && LocalsInv(plan, After(plan, w, e))
  {
  }

  lemma {:induction false} TaskEventKeeps(plan: seq<Job>, r0: Remote, w: World, e: Event)
    requires WellQueued(plan) && WellFormed(r0) && WorldInv(plan, r0, w) && CanDo(plan, w, e) && !e.Manage?
    ensures WorldInv(plan, r0, After(plan, w, e))
  {
    var k := Handled(w.manager);
    TaskEventKeepsLocals(plan, w, e);
    AllBusyApart(plan, w, e.i);
    if e.RemoteCall? {
      CallKeeps(plan, w.locals, k, w.failed, w.remote, r0, e.i, e.l, e.r);
    } else {
      FailKeeps(plan, w.locals, k, w.failed, w.remote, r0, e.i, e.r);
    }
  }

  lemma {:induction false} RunKeeps(plan: seq<Job>, r0: Remote, w: World, es: seq<Event>, w': World)
    requires WellQueued(plan) && WellFormed(r0) && WorldInv(plan, r0, w) && Run(plan, w, es, w')
    ensures WorldInv(plan, r0, w')
    decreases |es|
  {
    if es != [] {
      if es[0].Manage? {
        ManageKeeps(plan, r0, w, es[0].a);
      } else {
        TaskEventKeeps(plan, r0, w, es[0]);
      }
      RunKeeps(plan, r0, After(plan, w, es[0]), es[1..], w');
    }
  }

  lemma {:induction false} LookParent(t: Option<Tree>, q: Path)
    requires q != [] && Look(t, q).Some?
    ensures Look(t, Parent(q)) == Some(DirNode)
    decreases |q|
  {
    if |q| > 1 {
      LookParent(Child(t, q[0]), q[1..]);
      assert Parent(q)[1..] == Parent(q[1..]);
    } else {
      assert Parent(q) == [];
      assert Look(Child(t, q[0]), q[1..]).Some?;
    }
  }

  lemma {:induction false} TreeIsWellFormed(r: Remote, t: Option<Tree>)
    requires t.Some? && t.value.Dir? && Holds(r, [], t)
    ensures WellFormed(r)
  {
    var root: Path := [];
    assert [] + root == root;
    assert Get(r, [] + root) == Look(t, root);
    forall q: Path | q in r && [] < q
      ensures IsDir(r, Parent(q))
    {
      assert [] + q == q && [] + Parent(q) == Parent(q);
      assert Get(r, [] + q) == Look(t, q);
      LookParent(t, q);
      assert Get(r, [] + Parent(q)) == Look(t, Parent(q));
    }
  }

  // ---------- the theorems ----------

  /** When Wait has returned, every job has been through its task. */
  lemma {:induction false} AllJobsDone(plan: seq<Job>, r0: Remote, w: World)
    requires WorldInv(plan, r0, w) && w.manager.caller.WaitReturned?
    ensures Handled(w.manager) == |plan| == |w.manager.jobs| && w.manager.caller.ok
    ensures forall i | 0 <= i < |plan| :: w.locals[i] == Done
    ensures forall q: Path :: Quiet(plan, w.locals, |plan|, q)
  {
    var m := w.manager;
    assert Handled(m) < |m.status| ==> m.status[Handled(m)] == Queued;
    CountRetiredBound(m.status);
    assert m.todo == [];
    assert |m.jobs| == |plan|;
    forall i | 0 <= i < |plan|
      ensures w.locals[i] == Done
    {
      assert Retired(m.status[i]);
    }
  }

  /** At every moment the tasks that run need at most four threads together. */
  lemma {:induction false} AtMostFour(plan: seq<Job>, r0: Remote, es: seq<Event>, w: World)
    requires WellQueued(plan) && WellFormed(r0) && Run(plan, Begin(plan, r0), es, w)
    ensures |w.manager.jobs| == |w.manager.status| && w.manager.maxThreads == 4
    ensures 0 <= w.manager.currentThreads == ActiveThreads(w.manager.jobs, w.manager.status) <= 4
  {
    BeginInv(plan, r0);
    RunKeeps(plan, r0, Begin(plan, r0), es, w);
    ManagerFits(plan, w.manager);
  }

  lemma {:induction false} ManagerFits(plan: seq<Job>, m: State)
    requires ManagerInv(plan, m)
    ensures 0 <= m.currentThreads == ActiveThreads(m.jobs, m.status) <= 4
  {
    ActiveThreadsMeaning(m.jobs, m.status);
    if i: nat :| OnlyActive(m, i) {
      assert (m.jobs + m.todo)[i] == Requests(plan)[i];
      ActiveThreadsUpdate(m.jobs, m.status, i, Queued);
      ActiveThreadsMeaning(m.jobs, m.status[i := Queued]);
    }
  }

  lemma {:induction false} AllQuietAgrees(plan: seq<Job>, r0: Remote, w: World, q: Path)
    requires WorldInv(plan, r0, w) && Handled(w.manager) == |plan| && Quiet(plan, w.locals, |plan|, q) && Clean(w.failed, q)
    ensures Get(w.remote, q) == Get(ApplyJobs(plan, r0), q)
  {
    assert plan[..|plan|] == plan;
  }

  /** Whatever the interleaving, when Wait returns the tree is as doing the jobs one by one in the
      order they were queued leaves it, except at and below failed paths. */
  lemma {:induction false} RunIsInOrder(plan: seq<Job>, r0: Remote, es: seq<Event>, w: World)
    requires WellQueued(plan) && WellFormed(r0)
    requires Run(plan, Begin(plan, r0), es, w) && w.manager.caller.WaitReturned?
    ensures w.manager.caller.ok && |w.manager.jobs| == |plan|
    ensures forall q: Path | Clean(w.failed, q) :: Get(w.remote, q) == Get(ApplyJobs(plan, r0), q)
  {
    BeginInv(plan, r0);
    RunKeeps(plan, r0, Begin(plan, r0), es, w);
    AllJobsDone(plan, r0, w);
    forall q: Path | Clean(w.failed, q)
      ensures Get(w.remote, q) == Get(ApplyJobs(plan, r0), q)
    {
      AllQuietAgrees(plan, r0, w, q);
    }
  }

  /** Write-back of an overlay volume. For every upper layer and lower tree, every interleaving of
      the walk, the dispatcher, the workers and their remote calls, and every set of tasks that fail:
      once Wait has returned, which it then does without an error, every path that is not at or
      below a failed one is as the merged overlay shows it. */
  lemma {:induction false} SyncIsMerge(u: Upper, l: Tree, r0: Remote, es: seq<Event>, w: World)
    requires Valid(u) && u.UpperDir? && l.Dir?
    requires Holds(r0, [], Some(l))
    requires Run(Plan(u), Begin(Plan(u), r0), es, w) && w.manager.caller.WaitReturned?
    ensures w.manager.caller.ok && |w.manager.jobs| == |Plan(u)|
    ensures forall q: Path | Clean(w.failed, q) :: Get(w.remote, q) == Look(Merge(Dropped, WithPlainRoot(u), Some(l)), q)
  {
    TreeIsWellFormed(r0, Some(l));
    PlanIsWellQueued(u);
    RunIsInOrder(Plan(u), r0, es, w);
    InOrderIsMerge(u, l, r0);
    forall q: Path | Clean(w.failed, q)
      ensures Get(w.remote, q) == Look(Merge(Dropped, WithPlainRoot(u), Some(l)), q)
    {
      assert [] + q == q;
      assert Get(ApplyJobs(Plan(u), r0), [] + q) == Look(Merge(Dropped, WithPlainRoot(u), Some(l)), q);
    }
  }

  /** After the write-back every entry of the upper layer stands at its path as itself, unless its
      path is at or below a failed one. Only a file or whiteout whose name begins with ".wh." and ends
      with ".opq" is left out: there stands what stood there before, or nothing in an opaque directory. */
  lemma {:induction false} EntryIsWritten(u: Upper, l: Tree, r0: Remote, es: seq<Event>, w: World, p: Path, v: Upper, i: nat)
    requires Valid(u) && u.UpperDir? && !u.isOpaque && l.Dir? && Holds(r0, [], Some(l))
    requires Run(Plan(u), Begin(Plan(u), r0), es, w) && w.manager.caller.WaitReturned?
    requires At(u, p, v) && v.UpperDir? && i < |v.entries| && Clean(w.failed, p + [v.entries[i].0])
    ensures var (n, e) := v.entries[i];
            Get(w.remote, p + [n]) ==
              if e.UpperDir? || !(exists a: string, b: string :: n == ".wh." + a && n == b + ".opq") then Own(e)
              else if OpaqueAbove(u, p + [n]) then None
              else Get(r0, p + [n])
  {
    var (n, e) := v.entries[i];
    var q := p + [n];
    SyncIsMerge(u, l, r0, es, w);
    assert WithPlainRoot(u) == u && q + [] == q && [] + q == q;
    assert Get(r0, [] + q) == Look(Some(l), q);
    if e.UpperDir? || !HasMarkerName(n) {
      EntryShows(Dropped, u, Some(l), p, v, i, []);
    } else {
      Descend(Dropped, u, Some(l), p, v, []);
      assert forall j | 0 <= j < |v.entries| && v.entries[j].0 == n :: j == i;
      LowerShows(Dropped, u, Some(l), p, v, n, []);
    }
  }

  /** If no task fails, the whole remote tree is the merged overlay. */
  lemma {:induction false} SyncWithoutFailures(u: Upper, l: Tree, r0: Remote, es: seq<Event>, w: World)
    requires Valid(u) && u.UpperDir? && !u.isOpaque && l.Dir?
    requires Holds(r0, [], Some(l))
    requires Run(Plan(u), Begin(Plan(u), r0), es, w) && w.manager.caller.WaitReturned? && w.failed == {}
    ensures Holds(w.remote, [], Merge(Dropped, u, Some(l)))
  {
    SyncIsMerge(u, l, r0, es, w);
    assert WithPlainRoot(u) == u;
    forall q: Path
      ensures Get(w.remote, [] + q) == Look(Merge(Dropped, u, Some(l)), q)
    {
      assert [] + q == q && Clean(w.failed, q);
    }
  }

  /** Syncing the same upper layer once more changes nothing. */
  lemma {:induction false} SyncTwice(u: Upper, l: Tree, r0: Remote, es: seq<Event>, w: World, es': seq<Event>, w': World)
    requires Valid(u) && u.UpperDir? && !u.isOpaque && l.Dir?
    requires Holds(r0, [], Some(l))
    requires Run(Plan(u), Begin(Plan(u), r0), es, w) && w.manager.caller.WaitReturned? && w.failed == {}
    requires Run(Plan(u), Begin(Plan(u), w.remote), es', w') && w'.manager.caller.WaitReturned? && w'.failed == {}
    ensures w'.remote == w.remote
  {
    var once := Merge(Dropped, u, Some(l));
    SyncWithoutFailures(u, l, r0, es, w);
    SyncWithoutFailures(u, once.value, w.remote, es', w');
    MergeIdempotent(Dropped, u, Some(l));
    forall q: Path
      ensures Get(w'.remote, q) == Get(w.remote, q)
    {
      assert [] + q == q;
      assert Get(w'.remote, [] + q) == Look(once, q) == Get(w.remote, [] + q);
    }
    SameEntries(w'.remote, w.remote);
  }

  /** What the upper layer neither holds nor hides is untouched, also where nothing shows why. */
  lemma {:induction false} SyncFrame(u: Upper, l: Tree, r0: Remote, es: seq<Event>, w: World, q: Path)
    requires Valid(u) && u.UpperDir? && l.Dir?
    requires Holds(r0, [], Some(l))
    requires Run(Plan(u), Begin(Plan(u), r0), es, w) && w.manager.caller.WaitReturned?
    requires Clean(w.failed, q) && ShowsLower(Dropped, Some(WithPlainRoot(u)), q)
    ensures Get(w.remote, q) == Get(r0, q)
  {
    SyncIsMerge(u, l, r0, es, w);
    MergeIsView(Dropped, WithPlainRoot(u), Some(l), q);
    OneLayerDecides(Dropped, Some(WithPlainRoot(u)), Some(l), Some(l), q);
    assert [] + q == q;
    assert Get(r0, [] + q) == Look(Some(l), q);
  }

  // ---------- progress ----------

  /** Until all is over something can happen; and as long as nothing has failed, something other
      than a failure. */
  lemma {:induction false} SyncNeverStuck(u: Upper, r0: Remote, es: seq<Event>, w: World)
    requires Valid(u) && WellFormed(r0) && Run(Plan(u), Begin(Plan(u), r0), es, w) && !Over(w.manager)
    ensures exists e :: CanDo(Plan(u), w, e) && (w.failed == {} ==> !e.TaskFails?)
  {
    var plan, m := Plan(u), w.manager;
    PlanIsWellQueued(u);
    BeginInv(plan, r0);
    RunKeeps(plan, r0, Begin(plan, r0), es, w);
    PlanFits(plan, m);
    NoDeadlock(m);
    var a :| Enabled(m, a);
    SomethingCanHappen(plan, r0, w, a);
  }

  lemma {:induction false} SomethingCanHappen(plan: seq<Job>, r0: Remote, w: World, a: Action)
    requires WellQueued(plan) && WellFormed(r0) && WorldInv(plan, r0, w) && Enabled(w.manager, a)
    ensures exists e :: CanDo(plan, w, e) && (w.failed == {} ==> !e.TaskFails?)
  {
    var m := w.manager;
    if a.Work? && m.status[a.job].Running? {
      if w.locals[a.job] == Done {
        assert CanDo(plan, w, Manage(Work(a.job, false)));
      } else {
        TaskCanMove(plan, r0, w, a.job);
      }
    } else {
      assert CanDo(plan, w, Manage(a));
    }
  }

  lemma {:induction false} PlanFits(plan: seq<Job>, m: State)
    requires ManagerInv(plan, m)
    ensures FitsBudget(m)
  {
    assert forall i | 0 <= i < |m.jobs| :: m.jobs[i] == Requests(plan)[i];
    assert forall i | 0 <= i < |m.todo| :: m.todo[i] == Requests(plan)[|m.jobs| + i];
  }

  lemma {:induction false} TaskCanMove(plan: seq<Job>, r0: Remote, w: World, i: nat)
    requires WellQueued(plan) && WellFormed(r0) && WorldInv(plan, r0, w)
    requires i < |w.manager.status| && w.manager.status[i].Running? && w.locals[i] != Done
    ensures exists e :: CanDo(plan, w, e) && (w.failed == {} ==> !e.TaskFails?)
  {
    var k := Handled(w.manager);
    if w.failed == {} {
      assert Busy(w.locals, k, i) && Clean(w.failed, plan[i].path);
      assert OnCourse(plan, w.locals, k, i, w.remote, r0);
      AncestorsReady(plan, r0, w, i);
      var l, r := TaskCanProceed(plan[i].task, plan[i].path, w.locals[i], w.remote);
      assert CanDo(plan, w, RemoteCall(i, l, r));
    } else {
      assert CanDo(plan, w, TaskFails(i, w.remote));
    }
  }

  lemma {:induction false} AncestorsReady(plan: seq<Job>, r0: Remote, w: World, i: nat)
    requires WellQueued(plan) && WellFormed(r0) && WorldInv(plan, r0, w) && w.failed == {}
    requires Busy(w.locals, Handled(w.manager), i) && plan[i].Sync?
    ensures AncestorsAreDirs(w.remote, plan[i].path)
  {
    var k, p := Handled(w.manager), plan[i].path;
    AllBusyApart(plan, w, i);
    IdealGood(plan, k, r0);
    DirsAbove(plan, k, i, Ideal(plan, k, r0));
    forall n | 0 <= n < |p|
      ensures IsDir(w.remote, p[..n])
    {
      forall j: nat | Busy(w.locals, k, j) && plan[j].Sync?
        ensures !(plan[j].path <= p[..n])
      {
        if plan[j].path <= p[..n] {
          PrefixTransitive(plan[j].path, p[..n], p);
        }
      }
      assert Clean(w.failed, p[..n]) && Quiet(plan, w.locals, k, p[..n]);
      assert Get(w.remote, p[..n]) == Get(Ideal(plan, k, r0), p[..n]);
    }
  }

  function Phase(l: Local): nat {
    match l
    case Start => 5 case RmDir => 4 case RmFile => 4 case MkDir => 3 case Upload => 3
    case Listing => 3 case Clearing(_) => 2 case Done => 0
  }

  function Phases(ls: seq<Local>): nat {
    if ls == [] then 0 else Phase(ls[0]) + Phases(ls[1..])
  }

  function ToClear(l: Local): nat {
    if l.Clearing? then |l.todo| else 0
  }

  function AllToClear(ls: seq<Local>): nat {
    if ls == [] then 0 else ToClear(ls[0]) + AllToClear(ls[1..])
  }

  lemma {:induction false} LocalsUpdate(ls: seq<Local>, i: nat, l: Local)
    requires i < |ls|
    ensures Phases(ls[i := l]) == Phases(ls) - Phase(ls[i]) + Phase(l)
    ensures AllToClear(ls[i := l]) == AllToClear(ls) - ToClear(ls[i]) + ToClear(l)
  {
    if i > 0 {
      assert ls[i := l][1..] == ls[1..][i - 1 := l];
      LocalsUpdate(ls[1..], i - 1, l);
    } else {
      assert ls[i := l][1..] == ls[1..];
    }
  }

  /** Every event brings the world closer to its end. */
  lemma {:induction false} EventsRunOut(plan: seq<Job>, w: World, e: Event)
    requires QueueInv(w.manager) && CanDo(plan, w, e)
    ensures var w' := After(plan, w, e);
            || StepsLeft(w'.manager) < StepsLeft(w.manager)
            || (w'.manager == w.manager && Phases(w'.locals) < Phases(w.locals))
            || (w'.manager == w.manager && Phases(w'.locals) == Phases(w.locals) && AllToClear(w'.locals) < AllToClear(w.locals))
  {
    match e {
      case Manage(a) => EveryStepCounts(w.manager, a);
      case RemoteCall(i, l, r) => LocalsUpdate(w.locals, i, l);
      case TaskFails(i, r) => LocalsUpdate(w.locals, i, Done);
    }
  }

  ghost predicate IsStep(plan: seq<Job>, worlds: nat -> World, events: nat -> Event, n: nat) {
    CanDo(plan, worlds(n), events(n)) && worlds(n + 1) == After(plan, worlds(n), events(n))
  }

  lemma {:induction false} StopsFrom(plan: seq<Job>, r0: Remote, worlds: nat -> World, events: nat -> Event, n: nat)
    requires WellQueued(plan) && WellFormed(r0) && WorldInv(plan, r0, worlds(n))
    ensures exists k: nat :: !IsStep(plan, worlds, events, k)
    decreases StepsLeft(worlds(n).manager), Phases(worlds(n).locals), AllToClear(worlds(n).locals)
  {
    if IsStep(plan, worlds, events, n) {
      EventsRunOut(plan, worlds(n), events(n));
      if events(n).Manage? {
        ManageKeeps(plan, r0, worlds(n), events(n).a);
      } else {
        TaskEventKeeps(plan, r0, worlds(n), events(n));
      }
      StopsFrom(plan, r0, worlds, events, n + 1);
    }
  }

  /** No run of Sync goes on for ever, fair or not. */
  lemma {:induction false} EverySyncEnds(u: Upper, r0: Remote, worlds: nat -> World, events: nat -> Event)
    requires Valid(u) && WellFormed(r0) && worlds(0) == Begin(Plan(u), r0)
    ensures exists k: nat :: !IsStep(Plan(u), worlds, events, k)
  {
    PlanIsWellQueued(u);
    BeginInv(Plan(u), r0);
    StopsFrom(Plan(u), r0, worlds, events, 0);
  }

  lemma {:induction false} FinishFrom(plan: seq<Job>, r0: Remote, w: World) returns (es: seq<Event>, w': World)
    requires WellQueued(plan) && WellFormed(r0) && WorldInv(plan, r0, w) && w.failed == {}
    ensures Run(plan, w, es, w') && Over(w'.manager) && w'.failed == {}
    decreases StepsLeft(w.manager), Phases(w.locals), AllToClear(w.locals)
  {
    if Over(w.manager) {
      return [], w;
    }
    PlanFits(plan, w.manager);
    NoDeadlock(w.manager);
    var a :| Enabled(w.manager, a);
    SomethingCanHappen(plan, r0, w, a);
    var e :| CanDo(plan, w, e) && !e.TaskFails?;
    EventsRunOut(plan, w, e);
    if e.Manage? {
      ManageKeeps(plan, r0, w, e.a);
    } else {
      TaskEventKeeps(plan, r0, w, e);
    }
    var rest;
    rest, w' := FinishFrom(plan, r0, After(plan, w, e));
    es := [e] + rest;
  }

  /** Every write-back can be brought to its end without a failure, and then the collection is the
      merged overlay. */
  lemma {:induction false} SyncCanFinish(u: Upper, l: Tree, r0: Remote)
    requires Valid(u) && u.UpperDir? && l.Dir?
    requires Holds(r0, [], Some(l))
    ensures exists es, w ::
              && Run(Plan(u), Begin(Plan(u), r0), es, w) && w.manager.caller.WaitReturned? && w.failed == {}
              && Holds(w.remote, [], Merge(Dropped, WithPlainRoot(u), Some(l)))
  {
    TreeIsWellFormed(r0, Some(l));
    PlanIsWellQueued(u);
    BeginInv(Plan(u), r0);
    var es, w := FinishFrom(Plan(u), r0, Begin(Plan(u), r0));
    SyncIsMerge(u, l, r0, es, w);
    forall q: Path
      ensures Get(w.remote, [] + q) == Look(Merge(Dropped, WithPlainRoot(u), Some(l)), q)
    {
      assert [] + q == q && Clean(w.failed, q);
    }
  }
}
