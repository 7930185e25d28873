/** Running the queued jobs one after the other turns the lower tree into the overlay merge. */
module SyncInOrder {
  import opened Trees
  import opened Overlay
  import opened OverlayChange
  import opened Walk
  import opened SyncTasks

  function ApplyJob(j: Job, r: Remote): Remote {
    match j
    case Barrier => r
    case Sync(p, t) => Apply(t, p, r)
  }

  function ApplyJobs(js: seq<Job>, r: Remote): Remote {
    if js == [] then r else ApplyJobs(js[1..], ApplyJob(js[0], r))
  }

  /** The upper layer as the walk treats it: the root has no job, so its own flag has no effect. */
  function WithPlainRoot(u: Upper): Upper {
    if u.UpperDir? then UpperDir(false, u.entries) else u
  }

  lemma {:induction false} ApplyJobsAppend(a: seq<Job>, b: seq<Job>, r: Remote)
    ensures ApplyJobs(a + b, r) == ApplyJobs(b, ApplyJobs(a, r))
    decreases |a|
  {
    if a == [] {
      assert a + b == b;
    } else {
      assert (a + b)[1..] == a[1..] + b;
      ApplyJobsAppend(a[1..], b, ApplyJob(a[0], r));
    }
  }

  /** The entries of directory p have been merged: named ones show the view of their upper entry,
      the others are as they were in r. */
  ghost predicate Merged(r: Remote, r': Remote, p: Path, es: seq<(Name, Upper)>, lower: Option<Tree>) {
    forall n: Name, q: Path :: Get(r', p + [n] + q) ==
      match Find(Dropped, es, n) case Some(v) => View(Dropped, Some(v), Child(lower, n), q) case None => Get(r, p + [n] + q)
  }

  ghost predicate LowerReady(r: Remote, p: Path, es: seq<(Name, Upper)>, lower: Option<Tree>) {
    forall n: Name | Find(Dropped, es, n).Some? :: Holds(r, p + [n], Child(lower, n))
  }

  /** The subtree at p shows the view of u over l. */
  ghost predicate Shows(r: Remote, p: Path, u: Upper, l: Option<Tree>) {
    forall q: Path :: Get(r, p + q) == View(Dropped, Some(u), l, q)
  }

  /** Walking one entry merges its subtree and touches nothing else. */
  lemma {:induction false} EntryMerges(p: Path, u: Upper, l: Option<Tree>, c: Cursor, r: Remote)
    requires Valid(u) && p != [] && HasJob(Visit(p, u))
    requires WellFormed(r) && IsDir(r, Parent(p)) && Holds(r, p, l)
    ensures var r' := ApplyJobs(Jobs(Visits(p, u), c), r);
            WellFormed(r') && AgreeOutside(r, r', p) && Shows(r', p, u, l)
    decreases u, 1
  {
    ApplyIsLocal(TaskOf(u), p, r);
    FirstVisit(p, u, c, r);
    OwnTask(p, u, l, r);
    if u.UpperDir? {
      var r1 := Apply(TaskOf(u), p, r);
      EntriesMerge(p, u, u.entries, if u.isOpaque then None else l, DirOf(p), r1);
      DirShows(p, u, l, r1, ApplyJobs(Jobs(Visits(p, u), c), r));
    }
  }

  lemma {:induction false} OwnTask(p: Path, u: Upper, l: Option<Tree>, r: Remote)
    requires p != [] && WellFormed(r) && IsDir(r, Parent(p)) && Holds(r, p, l)
    ensures var r1 := Apply(TaskOf(u), p, r);
            if u.UpperDir? then IsDir(r1, p) && forall n: Name :: Holds(r1, p + [n], Child(if u.isOpaque then None else l, n))
            else Shows(r1, p, u, l)
  {
    var t := TaskOf(u);
    var r1 := Apply(t, p, r);
    ParentGivesAncestors(p, r);
    assert TreeUnder(r, p);
    forall q: Path
      ensures Get(r1, p + q) == if q == [] then NodeAfter(t) else if t == DirTask(false) then Get(r, p + q) else None
    {
      assert p <= p + q && (p + q == p <==> q == []);
      ApplyAt(t, p, r, p + q);
    }
    assert p + [] == p;
    if u.UpperDir? {
      LowerAfterDir(p, u.isOpaque, l, r, r1);
    }
  }

  lemma {:induction false} DirShows(p: Path, u: Upper, l: Option<Tree>, r: Remote, r': Remote)
    requires u.UpperDir? && IsDir(r', p)
    requires forall n: Name :: Holds(r, p + [n], Child(if u.isOpaque then None else l, n))
    requires Merged(r, r', p, u.entries, if u.isOpaque then None else l)
    ensures Shows(r', p, u, l)
  {
    forall q: Path
      ensures Get(r', p + q) == View(Dropped, Some(u), l, q)
    {
      if q != [] {
        assert p + q == p + [q[0]] + q[1..];
        assert Holds(r, p + [q[0]], Child(if u.isOpaque then None else l, q[0]));
      } else {
        assert p + q == p;
      }
    }
  }

  lemma {:induction false} FirstVisit(p: Path, u: Upper, c: Cursor, r: Remote)
    ensures ApplyJobs(Jobs(Visits(p, u), c), r) ==
            var r1 := if HasJob(Visit(p, u)) then Apply(TaskOf(u), p, r) else r;
            if u.UpperDir? then ApplyJobs(Jobs(VisitsOf(p, u, u.entries), DirOf(p)), r1) else r1
  {
    var v, rest := Visit(p, u), Visits(p, u)[1..];
    assert rest == if u.UpperDir? then VisitsOf(p, u, u.entries) else [];
    assert Jobs(Visits(p, u), c) == VisitJobs(v, c) + Jobs(rest, DirOf(p));
    ApplyJobsAppend(VisitJobs(v, c), Jobs(rest, DirOf(p)), r);
    var a, b := if c != DirOf(p) then [Barrier] else [], if HasJob(v) then [Sync(p, TaskOf(u))] else [];
    ApplyJobsAppend(a, b, r);
    assert ApplyJobs(a, r) == r;
    assert b != [] ==> b[1..] == [];
  }

  lemma {:induction false} LowerAfterDir(p: Path, o: bool, l: Option<Tree>, r: Remote, r1: Remote)
    requires Holds(r, p, l)
    requires forall q: Path | q != [] :: Get(r1, p + q) == if o then None else Get(r, p + q)
    ensures forall n: Name :: Holds(r1, p + [n], Child(if o then None else l, n))
  {
    forall n: Name, q: Path
      ensures Get(r1, p + [n] + q) == Look(Child(if o then None else l, n), q)
    {
      var s := [n] + q;
      assert p + [n] + q == p + s && s[1..] == q;
      assert Get(r, p + s) == Look(l, s);
    }
  }

  /** Walking the entries of p merges each of them. */
  lemma {:induction false} EntriesMerge(p: Path, u: Upper, es: seq<(Name, Upper)>, lower: Option<Tree>, c: Cursor, r: Remote)
    requires u.UpperDir? && (forall e | e in es :: e.1 < u && Valid(e.1)) && DistinctNames(es)
    requires WellFormed(r) && IsDir(r, p) && LowerReady(r, p, es, lower)
    ensures var r' := ApplyJobs(Jobs(VisitsOf(p, u, es), c), r);
            WellFormed(r') && AgreeOutside(r, r', p) && IsDir(r', p) && Merged(r, r', p, es, lower)
    decreases u, 0, |es|
  {
    if es != [] {
      assert es[0] in es;
      var (n, v) := es[0];
      var a, b := Visits(p + [n], v), VisitsOf(p, u, es[1..]);
      var c1, r1 := CursorAfter(a, c), ApplyJobs(Jobs(a, c), r);
      JobsAppend(a, b, c);
      ApplyJobsAppend(Jobs(a, c), Jobs(b, c1), r);
      LastName(p, n);
      if IsIgnored(Dropped, n, v) {
        FirstVisit(p + [n], v, c, r);
      } else {
        assert Find(Dropped, es, n) == Some(v);
        assert Holds(r, p + [n], Child(lower, n));
        EntryMerges(p + [n], v, Child(lower, n), c, r);
      }
      OneEntryDone(p, u, es, lower, c1, r, r1);
    }
  }

  lemma {:induction false} LastName(p: Path, n: Name)
    ensures Parent(p + [n]) == p && (p + [n])[|p + [n]| - 1] == n
  {
  }

  lemma {:induction false} OneEntryDone(p: Path, u: Upper, es: seq<(Name, Upper)>, lower: Option<Tree>, c1: Cursor, r: Remote, r1: Remote)
    requires u.UpperDir? && (forall e | e in es :: e.1 < u && Valid(e.1)) && DistinctNames(es) && es != []
    requires IsDir(r, p) && LowerReady(r, p, es, lower)
    requires WellFormed(r1)
    requires if IsIgnored(Dropped, es[0].0, es[0].1) then r1 == r
             else AgreeOutside(r, r1, p + [es[0].0]) && Shows(r1, p + [es[0].0], es[0].1, Child(lower, es[0].0))
    ensures var r' := ApplyJobs(Jobs(VisitsOf(p, u, es[1..]), c1), r1);
            WellFormed(r') && AgreeOutside(r, r', p) && IsDir(r', p) && Merged(r, r', p, es, lower)
    decreases u, 0, |es|, 0
  {
    var r' := ApplyJobs(Jobs(VisitsOf(p, u, es[1..]), c1), r1);
    OthersStay(p, es[0].0, r, r1);
    LaterReady(p, es, lower, r, r1);
    EntriesMerge(p, u, es[1..], lower, c1, r1);
    MergedFrom(p, es, lower, r, r1, r');
    forall q: Path | !(p <= q)
      ensures Get(r, q) == Get(r', q)
    {
      assert Get(r, q) == Get(r1, q);
    }
  }

  lemma {:induction false} OthersStay(p: Path, n: Name, r: Remote, r1: Remote)
    requires r == r1 || AgreeOutside(r, r1, p + [n])
    ensures forall m: Name, q: Path | m != n :: Get(r1, p + [m] + q) == Get(r, p + [m] + q)
    ensures AgreeOutside(r, r1, p) && (IsDir(r, p) ==> IsDir(r1, p))
  {
    forall m: Name, q: Path | m != n
      ensures Get(r1, p + [m] + q) == Get(r, p + [m] + q)
    {
      assert (p + [m] + q)[|p|] == m && (p + [n])[|p|] == n;
    }
    forall q: Path | !(p <= q)
      ensures Get(r, q) == Get(r1, q)
    {
      assert p <= p + [n];
      if p + [n] <= q {
        PrefixTransitive(p, p + [n], q);
      }
    }
    assert Get(r, p) == Get(r1, p);
  }

  lemma {:induction false} TailNames(es: seq<(Name, Upper)>, m: Name)
    requires es != [] && DistinctNames(es)
    ensures m == es[0].0 ==> Find(Dropped, es[1..], m) == None
    ensures m != es[0].0 || IsIgnored(Dropped, es[0].0, es[0].1) ==> Find(Dropped, es, m) == Find(Dropped, es[1..], m)
  {
    FindIs(Dropped, es[1..], m);
    assert forall i | 0 <= i < |es[1..]| :: es[1..][i] == es[i + 1];
  }

  lemma {:induction false} LaterReady(p: Path, es: seq<(Name, Upper)>, lower: Option<Tree>, r: Remote, r1: Remote)
    requires es != [] && DistinctNames(es) && LowerReady(r, p, es, lower)
    requires forall m: Name, q: Path | m != es[0].0 :: Get(r1, p + [m] + q) == Get(r, p + [m] + q)
    ensures LowerReady(r1, p, es[1..], lower)
  {
    forall m: Name | Find(Dropped, es[1..], m).Some?
      ensures Holds(r1, p + [m], Child(lower, m))
    {
      TailNames(es, m);
      assert Holds(r, p + [m], Child(lower, m));
      forall q: Path
        ensures Get(r1, p + [m] + q) == Look(Child(lower, m), q)
      {
        assert Get(r, p + [m] + q) == Look(Child(lower, m), q);
      }
    }
  }

  lemma {:induction false} MergedFrom(p: Path, es: seq<(Name, Upper)>, lower: Option<Tree>, r: Remote, r1: Remote, r2: Remote)
    requires es != [] && DistinctNames(es)
    requires forall m: Name, q: Path | m != es[0].0 :: Get(r1, p + [m] + q) == Get(r, p + [m] + q)
    requires if IsIgnored(Dropped, es[0].0, es[0].1) then r1 == r else Shows(r1, p + [es[0].0], es[0].1, Child(lower, es[0].0))
    requires Merged(r1, r2, p, es[1..], lower)
    ensures Merged(r, r2, p, es, lower)
  {
    forall m: Name, q: Path
      ensures Get(r2, p + [m] + q) ==
        match Find(Dropped, es, m) case Some(v) => View(Dropped, Some(v), Child(lower, m), q) case None => Get(r, p + [m] + q)
    {
      TailNames(es, m);
    }
  }

  lemma {:induction false} LowerAfterRoot(l: Tree, r: Remote, n: Name)
    requires l.Dir? && Holds(r, [], Some(l))
    ensures Holds(r, [] + [n], Child(Some(l), n))
  {
    forall q: Path
      ensures Get(r, [] + [n] + q) == Look(Child(Some(l), n), q)
    {
      var s := [n] + q;
      assert [] + [n] + q == [] + s && s[1..] == q;
      assert Get(r, [] + s) == Look(Some(l), s);
    }
  }

  lemma {:induction false} RootStarts(u: Upper, l: Tree, r: Remote)
    requires u.UpperDir? && l.Dir? && Holds(r, [], Some(l))
    ensures LowerReady(r, [], u.entries, Some(l))
  {
    forall n: Name
      ensures Holds(r, [] + [n], Child(Some(l), n))
    {
      LowerAfterRoot(l, r, n);
    }
  }

  lemma {:induction false} RootMerged(u: Upper, l: Tree, r: Remote, r': Remote)
    requires Valid(u) && u.UpperDir? && l.Dir? && Holds(r, [], Some(l))
    requires IsDir(r', []) && Merged(r, r', [], u.entries, Some(l))
    ensures Holds(r', [], Merge(Dropped, WithPlainRoot(u), Some(l)))
  {
    forall n: Name
      ensures Holds(r, [] + [n], Child(Some(l), n))
    {
      LowerAfterRoot(l, r, n);
    }
    DirShows([], WithPlainRoot(u), Some(l), r, r');
    forall q: Path
      ensures Get(r', [] + q) == Look(Merge(Dropped, WithPlainRoot(u), Some(l)), q)
    {
      MergeIsView(Dropped, WithPlainRoot(u), Some(l), q);
    }
  }

  /** Sync run in order: the lower tree becomes the overlay merge. */
  lemma {:induction false} InOrderIsMerge(u: Upper, l: Tree, r: Remote)
    requires Valid(u) && u.UpperDir? && l.Dir?
    requires WellFormed(r) && Holds(r, [], Some(l))
    ensures Holds(ApplyJobs(Plan(u), r), [], Merge(Dropped, WithPlainRoot(u), Some(l)))
    ensures WellFormed(ApplyJobs(Plan(u), r))
  {
    FirstVisit([], u, Unset, r);
    RootStarts(u, l, r);
    EntriesMerge([], u, u.entries, Some(l), DirOf([]), r);
    RootMerged(u, l, r, ApplyJobs(Plan(u), r));
  }

  lemma {:induction false} PlainRootAlone(u: Upper)
    requires Valid(u) && u.UpperDir?
    ensures Merge(Dropped, WithPlainRoot(u), None) == Merge(Dropped, u, None)
  {
    var plain := WithPlainRoot(u);
    forall n: Name
      ensures Child(Merge(Dropped, plain, None), n) == Child(Merge(Dropped, u, None), n)
    {
      ChildOfMerge(Dropped, plain, None, n);
      ChildOfMerge(Dropped, u, None, n);
    }
    SameChildren(Merge(Dropped, plain, None).value, Merge(Dropped, u, None).value);
  }

  /** Ignoring the root's flag gives the merged overlay exactly when the root is not opaque or its
      entries hide all of the lower layer. */
  lemma {:induction false} PlainRootIff(u: Upper, l: Tree)
    requires Valid(u) && u.UpperDir?
    ensures Merge(Dropped, WithPlainRoot(u), Some(l)) == Merge(Dropped, u, Some(l)) <==> !u.isOpaque || HidesAll(Dropped, WithPlainRoot(u), Some(l))
  {
    var plain := WithPlainRoot(u);
    if u.isOpaque {
      OpaqueMerge(Dropped, u, Some(l));
      PlainRootAlone(u);
      HidesAllIff(Dropped, plain, Some(l));
    }
  }

  /** An opaque root with nothing in it leaves a lower file that it should hide. */
  lemma {:induction false} OpaqueRootExample(x: Data)
    ensures var u, l := UpperDir(true, []), Dir(map["f" := File(x)]);
            Merge(Dropped, u, Some(l)) == Some(Dir(map[])) && Merge(Dropped, WithPlainRoot(u), Some(l)) == Some(l)
  {
  }
}
