/** Why sync tasks that run at the same time do not get in each other's way: an account of what
    the remote store holds while any number of them are part way through. */
module SyncRace {
  import opened Trees
  import opened Walk
  import opened SyncTasks
  import opened SyncInOrder

  /** The store after the first k jobs, run in order. */
  function Ideal(plan: seq<Job>, k: nat, r0: Remote): Remote
    requires k <= |plan|
  {
    ApplyJobs(plan[..k], r0)
  }

  /** Task i is part way through. */
  predicate Busy(locals: seq<Local>, k: nat, i: nat) {
    i < k <= |locals| && locals[i] != Done
  }

  /** No failed task is at or above q. */
  ghost predicate Clean(failed: set<Path>, q: Path) {
    forall f | f in failed :: !(f <= q)
  }

  /** No busy task is at or above q. */
  ghost predicate Quiet(plan: seq<Job>, locals: seq<Local>, k: nat, q: Path)
    requires k <= |plan|
  {
    forall i: nat | Busy(locals, k, i) && plan[i].Sync? :: !(plan[i].path <= q)
  }

  /** Where nothing failed and nothing is busy, the store is as the first k jobs leave it. */
  ghost predicate Settled(plan: seq<Job>, locals: seq<Local>, k: nat, failed: set<Path>, r: Remote, r0: Remote)
    requires k <= |plan|
  {
    forall q: Path | Clean(failed, q) && Quiet(plan, locals, k, q) :: Get(r, q) == Get(Ideal(plan, k, r0), q)
  }

  /** Task i, let run alone to its end, would leave its subtree as the first k jobs do. */
  ghost predicate OnCourse(plan: seq<Job>, locals: seq<Local>, k: nat, i: nat, r: Remote, r0: Remote)
    requires k <= |plan| && i < |plan| && i < |locals| && plan[i].Sync?
  {
    && LocalOk(plan[i].task, plan[i].path, locals[i], r)
    && AgreeUnder(Rest(plan[i].task, plan[i].path, locals[i], r), Ideal(plan, k, r0), plan[i].path)
  }

  ghost predicate Underway(plan: seq<Job>, locals: seq<Local>, k: nat, failed: set<Path>, r: Remote, r0: Remote)
    requires k <= |plan|
  {
    forall i: nat | Busy(locals, k, i) && plan[i].Sync? && Clean(failed, plan[i].path) :: OnCourse(plan, locals, k, i, r, r0)
  }

  ghost predicate BusyApart(plan: seq<Job>, locals: seq<Local>, k: nat, i: nat)
    requires k <= |plan| && i < |plan| && plan[i].Sync?
  {
    forall j: nat | Busy(locals, k, j) && plan[j].Sync? && j != i :: Apart(plan[j].path, plan[i].path)
  }

  // ---------- the jobs in order ----------

  lemma {:induction false} IdealNext(plan: seq<Job>, k: nat, r0: Remote)
    requires k < |plan|
    ensures Ideal(plan, k + 1, r0) == ApplyJob(plan[k], Ideal(plan, k, r0))
  {
    assert plan[..k + 1] == plan[..k] + [plan[k]];
    ApplyJobsAppend(plan[..k], [plan[k]], r0);
    assert [plan[k]][1..] == [];
  }

  ghost predicate DirsMade(plan: seq<Job>, k: nat, r: Remote)
    requires k <= |plan|
  {
    forall i | 0 <= i < k && plan[i].Sync? && plan[i].task.DirTask? :: IsDir(r, plan[i].path)
  }

  /** In order, every job finds the directories above it made. */
  lemma {:induction false} IdealGood(plan: seq<Job>, k: nat, r0: Remote)
    requires WellQueued(plan) && WellFormed(r0) && k <= |plan|
    ensures WellFormed(Ideal(plan, k, r0)) && DirsMade(plan, k, Ideal(plan, k, r0))
  {
    if k > 0 {
      IdealGood(plan, k - 1, r0);
      IdealNext(plan, k - 1, r0);
      match plan[k - 1] {
        case Sync(_, _) => JobKeepsDirs(plan, k - 1, Ideal(plan, k - 1, r0));
        case Barrier => assert DirsMade(plan, k, Ideal(plan, k - 1, r0));
      }
    }
  }

  lemma {:induction false} JobKeepsDirs(plan: seq<Job>, k: nat, r: Remote)
    requires WellQueued(plan) && k < |plan| && plan[k].Sync? && WellFormed(r) && DirsMade(plan, k, r)
    ensures var r' := Apply(plan[k].task, plan[k].path, r); WellFormed(r') && DirsMade(plan, k + 1, r')
  {
    var t, p := plan[k].task, plan[k].path;
    DirsAbove(plan, k, k, r);
    assert p[..|p| - 1] == Parent(p);
    ApplyIsLocal(t, p, r);
    MakesItsDir(t, p, r);
    forall i | 0 <= i < k && plan[i].Sync? && plan[i].task.DirTask?
      ensures IsDir(Apply(t, p, r), plan[i].path)
    {
      assert Get(r, plan[i].path) == Get(Apply(t, p, r), plan[i].path);
    }
  }

  lemma {:induction false} MakesItsDir(t: Task, p: Path, r: Remote)
    requires AncestorsAreDirs(r, p) && WellFormed(r)
    ensures t.DirTask? ==> IsDir(Apply(t, p, r), p)
  {
    assert TreeUnder(r, p);
    ApplyAt(t, p, r, p);
  }

  lemma {:induction false} DirsAbove(plan: seq<Job>, k: nat, i: nat, r: Remote)
    requires WellQueued(plan) && i <= k <= |plan| && i < |plan| && plan[i].Sync?
    requires IsDir(r, []) && DirsMade(plan, k, r)
    ensures AncestorsAreDirs(r, plan[i].path)
  {
    var p := plan[i].path;
    forall m | 0 <= m < |p|
      ensures IsDir(r, p[..m])
    {
      if m > 0 {
        assert DirsQueued(plan[..i], p);
        var j :| j in plan[..i] && j.Sync? && j.path == p[..m] && j.task.DirTask?;
        var n :| 0 <= n < i && plan[..i][n] == j;
        assert plan[n] == j;
      } else {
        assert p[..m] == [];
      }
    }
  }

  // ---------- a remote call ----------

  /** A change by task i is confined: elsewhere settled paths stay settled, since the directories
      it might have to make above itself are there already. */
  lemma {:induction false} SettledStays(plan: seq<Job>, locals: seq<Local>, k: nat, failed: set<Path>, r: Remote, r0: Remote, i: nat, r': Remote, q: Path)
    requires WellQueued(plan) && WellFormed(r0) && k <= |plan| == |locals|
    requires Settled(plan, locals, k, failed, r, r0)
    requires Busy(locals, k, i) && plan[i].Sync? && BusyApart(plan, locals, k, i) && Touches(plan[i].path, r, r')
    requires Clean(failed, q) && !(plan[i].path <= q)
    ensures Get(r', q) == Get(r, q)
  {
    var p := plan[i].path;
    if q <= p {
      assert q == p[..|q|];
      forall j: nat | Busy(locals, k, j) && plan[j].Sync?
        ensures !(plan[j].path <= q)
      {
        if plan[j].path <= q {
          PrefixTransitive(plan[j].path, q, p);
        }
      }
      IdealGood(plan, k, r0);
      DirsAbove(plan, k, i, Ideal(plan, k, r0));
      assert IsDir(Ideal(plan, k, r0), p[..|q|]);
      assert Quiet(plan, locals, k, q);
      assert Get(r, q) == Get(Ideal(plan, k, r0), q) == Some(DirNode);
    }
  }

  /** A change by one task leaves the subtree of every other busy task alone. */
  lemma {:induction false} OthersUntouched(p: Path, p': Path, r: Remote, r': Remote)
    requires Touches(p, r, r') && Apart(p, p')
    ensures AgreeUnder(r, r', p')
  {
    forall q: Path | p' <= q
      ensures Get(r, q) == Get(r', q)
    {
      if Get(r', q) != Get(r, q) {
        if p <= q {
          PrefixesComparable(p, p', q);
        } else {
          PrefixTransitive(p', q, p);
        }
      }
    }
  }

  lemma {:induction false} OthersOnCourse(plan: seq<Job>, locals: seq<Local>, k: nat, r: Remote, r0: Remote, i: nat, r': Remote, locals': seq<Local>, j: nat)
    requires k <= |plan| == |locals| == |locals'| && i < |plan| && plan[i].Sync? && Touches(plan[i].path, r, r')
    requires j < |plan| && plan[j].Sync? && Apart(plan[j].path, plan[i].path) && locals'[j] == locals[j]
    requires OnCourse(plan, locals, k, j, r, r0)
    ensures OnCourse(plan, locals', k, j, r', r0)
  {
    var t, p := plan[j].task, plan[j].path;
    OthersUntouched(plan[i].path, p, r, r');
    RestIsLocal(t, p, locals[j], r, r');
    forall q: Path | p <= q
      ensures Get(Rest(t, p, locals[j], r'), q) == Get(Ideal(plan, k, r0), q)
    {
      assert Get(Rest(t, p, locals[j], r), q) == Get(Rest(t, p, locals[j], r'), q);
    }
  }

  /** A successful remote call keeps the account. */
  lemma {:induction false} CallKeeps(plan: seq<Job>, locals: seq<Local>, k: nat, failed: set<Path>, r: Remote, r0: Remote, i: nat, l': Local, r': Remote)
    requires WellQueued(plan) && WellFormed(r0) && k <= |plan| == |locals|
    requires Settled(plan, locals, k, failed, r, r0) && Underway(plan, locals, k, failed, r, r0)
    requires Busy(locals, k, i) && plan[i].Sync? && BusyApart(plan, locals, k, i)
    requires Step(plan[i].task, plan[i].path, locals[i], r, l', r')
    ensures Settled(plan, locals[i := l'], k, failed, r', r0) && Underway(plan, locals[i := l'], k, failed, r', r0)
  {
    var t, p, locals' := plan[i].task, plan[i].path, locals[i := l'];
    StepTouches(t, p, locals[i], r, l', r');
    if Clean(failed, p) {
      assert OnCourse(plan, locals, k, i, r, r0);
      StepKeepsRest(t, p, locals[i], r, l', r');
      assert OnCourse(plan, locals', k, i, r', r0);
    }
    forall j: nat | Busy(locals', k, j) && plan[j].Sync? && Clean(failed, plan[j].path)
      ensures OnCourse(plan, locals', k, j, r', r0)
    {
      if j != i {
        assert Busy(locals, k, j);
        OthersOnCourse(plan, locals, k, r, r0, i, r', locals', j);
      }
    }
    forall q: Path | Clean(failed, q) && Quiet(plan, locals', k, q)
      ensures Get(r', q) == Get(Ideal(plan, k, r0), q)
    {
      if p <= q {
        assert l' == Done by {
          if l' != Done {
            assert Busy(locals', k, i);
          }
        }
        forall f | f in failed
          ensures !(f <= p)
        {
          if f <= p {
            PrefixTransitive(f, p, q);
          }
        }
        assert OnCourse(plan, locals', k, i, r', r0);
        assert Get(Rest(t, p, l', r'), q) == Get(Ideal(plan, k, r0), q);
      } else {
        QuietBefore(plan, locals, k, i, l', q);
        SettledStays(plan, locals, k, failed, r, r0, i, r', q);
      }
    }
  }

  lemma {:induction false} QuietBefore(plan: seq<Job>, locals: seq<Local>, k: nat, i: nat, l': Local, q: Path)
    requires k <= |plan| == |locals| && i < |plan| && plan[i].Sync? && !(plan[i].path <= q)
    requires Quiet(plan, locals[i := l'], k, q)
    ensures Quiet(plan, locals, k, q)
  {
    forall j: nat | Busy(locals, k, j) && plan[j].Sync?
      ensures !(plan[j].path <= q)
    {
      if j != i {
        assert Busy(locals[i := l'], k, j);
      }
    }
  }

  /** A task that gives up, whatever it leaves in its subtree, keeps the account elsewhere. */
  lemma {:induction false} FailKeeps(plan: seq<Job>, locals: seq<Local>, k: nat, failed: set<Path>, r: Remote, r0: Remote, i: nat, r': Remote)
    requires WellQueued(plan) && WellFormed(r0) && k <= |plan| == |locals|
    requires Settled(plan, locals, k, failed, r, r0) && Underway(plan, locals, k, failed, r, r0)
    requires Busy(locals, k, i) && plan[i].Sync? && BusyApart(plan, locals, k, i) && Touches(plan[i].path, r, r')
    ensures var failed' := failed + {plan[i].path};
            Settled(plan, locals[i := Done], k, failed', r', r0) && Underway(plan, locals[i := Done], k, failed', r', r0)
  {
    var p, locals', failed' := plan[i].path, locals[i := Done], failed + {plan[i].path};
    forall j: nat | Busy(locals', k, j) && plan[j].Sync? && Clean(failed', plan[j].path)
      ensures OnCourse(plan, locals', k, j, r', r0)
    {
      assert Busy(locals, k, j) && Clean(failed, plan[j].path);
      OthersOnCourse(plan, locals, k, r, r0, i, r', locals', j);
    }
    forall q: Path | Clean(failed', q) && Quiet(plan, locals', k, q)
      ensures Get(r', q) == Get(Ideal(plan, k, r0), q)
    {
      assert p in failed' && Clean(failed, q);
      QuietBefore(plan, locals, k, i, Done, q);
      SettledStays(plan, locals, k, failed, r, r0, i, r', q);
    }
  }

  // ---------- a launch ----------

  /** Starting the next job keeps the account. */
  lemma {:induction false} LaunchKeeps(plan: seq<Job>, locals: seq<Local>, k: nat, failed: set<Path>, r: Remote, r0: Remote)
    requires WellQueued(plan) && WellFormed(r0) && k < |plan| == |locals|
    requires Settled(plan, locals, k, failed, r, r0) && Underway(plan, locals, k, failed, r, r0)
    requires plan[k].Sync? ==> BusyApart(plan, locals, k, k)
    requires locals[k] == if plan[k].Sync? then Start else Done
    requires forall f | f in failed :: exists m :: 0 <= m < k && plan[m].Sync? && plan[m].path == f
    ensures Settled(plan, locals, k + 1, failed, r, r0) && Underway(plan, locals, k + 1, failed, r, r0)
  {
    IdealNext(plan, k, r0);
    if plan[k].Sync? {
      LaunchedOnCourse(plan, locals, k, failed, r, r0);
      LaunchSettled(plan, locals, k, failed, r, r0);
      forall i: nat | Busy(locals, k + 1, i) && plan[i].Sync? && Clean(failed, plan[i].path)
        ensures OnCourse(plan, locals, k + 1, i, r, r0)
      {
        if i < k {
          assert Busy(locals, k, i);
          BehindOnCourse(plan, locals, k, r, r0, i);
        }
      }
    } else {
      forall q: Path | Quiet(plan, locals, k + 1, q)
        ensures Quiet(plan, locals, k, q)
      {
        assert forall i: nat :: Busy(locals, k, i) ==> Busy(locals, k + 1, i);
      }
      assert forall i: nat :: Busy(locals, k + 1, i) ==> Busy(locals, k, i);
      assert forall i: nat | Busy(locals, k, i) && plan[i].Sync? && OnCourse(plan, locals, k, i, r, r0) :: OnCourse(plan, locals, k + 1, i, r, r0);
    }
  }

  lemma {:induction false} NextIsLocal(plan: seq<Job>, k: nat, r0: Remote)
    requires WellQueued(plan) && WellFormed(r0) && k < |plan| && plan[k].Sync?
    ensures AgreeOutside(Ideal(plan, k, r0), Ideal(plan, k + 1, r0), plan[k].path)
    ensures WellFormed(Ideal(plan, k, r0))
  {
    var p := plan[k].path;
    IdealNext(plan, k, r0);
    IdealGood(plan, k, r0);
    DirsAbove(plan, k, k, Ideal(plan, k, r0));
    assert p[..|p| - 1] == Parent(p);
    ApplyIsLocal(plan[k].task, p, Ideal(plan, k, r0));
  }

  lemma {:induction false} LaunchSettled(plan: seq<Job>, locals: seq<Local>, k: nat, failed: set<Path>, r: Remote, r0: Remote)
    requires WellQueued(plan) && WellFormed(r0) && k < |plan| == |locals| && plan[k].Sync? && locals[k] == Start
    requires Settled(plan, locals, k, failed, r, r0)
    ensures Settled(plan, locals, k + 1, failed, r, r0)
  {
    NextIsLocal(plan, k, r0);
    forall q: Path | Clean(failed, q) && Quiet(plan, locals, k + 1, q)
      ensures Get(r, q) == Get(Ideal(plan, k + 1, r0), q)
    {
      assert Busy(locals, k + 1, k);
      forall i: nat | Busy(locals, k, i) && plan[i].Sync?
        ensures !(plan[i].path <= q)
      {
        assert Busy(locals, k + 1, i);
      }
      assert Get(Ideal(plan, k, r0), q) == Get(Ideal(plan, k + 1, r0), q);
    }
  }

  lemma {:induction false} BehindOnCourse(plan: seq<Job>, locals: seq<Local>, k: nat, r: Remote, r0: Remote, i: nat)
    requires WellQueued(plan) && WellFormed(r0) && i < k < |plan| == |locals| && plan[k].Sync? && plan[i].Sync?
    requires Apart(plan[i].path, plan[k].path) && OnCourse(plan, locals, k, i, r, r0)
    ensures OnCourse(plan, locals, k + 1, i, r, r0)
  {
    var p := plan[i].path;
    NextIsLocal(plan, k, r0);
    forall q: Path | p <= q
      ensures Get(Rest(plan[i].task, p, locals[i], r), q) == Get(Ideal(plan, k + 1, r0), q)
    {
      if plan[k].path <= q {
        PrefixesComparable(p, plan[k].path, q);
      }
      assert Get(Ideal(plan, k, r0), q) == Get(Ideal(plan, k + 1, r0), q);
    }
  }

  lemma {:induction false} LaunchedOnCourse(plan: seq<Job>, locals: seq<Local>, k: nat, failed: set<Path>, r: Remote, r0: Remote)
    requires WellQueued(plan) && WellFormed(r0) && k < |plan| == |locals| && plan[k].Sync? && locals[k] == Start
    requires Settled(plan, locals, k, failed, r, r0) && BusyApart(plan, locals, k, k)
    requires forall f | f in failed :: exists m :: 0 <= m < k && plan[m].Sync? && plan[m].path == f
    ensures Clean(failed, plan[k].path) ==> OnCourse(plan, locals, k + 1, k, r, r0)
  {
    var t, p, ideal := plan[k].task, plan[k].path, Ideal(plan, k, r0);
    IdealNext(plan, k, r0);
    NextIsLocal(plan, k, r0);
    forall f | f in failed
      ensures !(p <= f)
    {
      var m :| 0 <= m < k && plan[m].Sync? && plan[m].path == f;
    }
    if Clean(failed, p) {
      forall q: Path | p <= q
        ensures Get(ideal, q) == Get(r, q)
      {
        forall f | f in failed
          ensures !(f <= q)
        {
          if f <= q {
            PrefixesComparable(f, p, q);
          }
        }
        forall i: nat | Busy(locals, k, i) && plan[i].Sync?
          ensures !(plan[i].path <= q)
        {
          if plan[i].path <= q {
            PrefixesComparable(plan[i].path, p, q);
          }
        }
        assert Clean(failed, q) && Quiet(plan, locals, k, q);
      }
      assert TreeUnder(ideal, p);
      RestIsLocal(t, p, Start, ideal, r);
      forall q: Path | p <= q
        ensures Get(Rest(t, p, Start, r), q) == Get(Ideal(plan, k + 1, r0), q)
      {
        assert Get(Rest(t, p, Start, ideal), q) == Get(Rest(t, p, Start, r), q);
      }
    }
  }
}
