/** What a write-back leaves when it is stopped at any point: where the lower layer shows through the
    upper one, the store is as it was. */
module SyncMidway {
  import opened Trees
  import opened Overlay
  import opened OverlayChange
  import opened Walk
  import opened SyncTasks
  import opened SyncInOrder
  import opened SyncRace
  import opened SyncRuns
  import opened JobManager

  // ---------- no job is for a path where the lower layer shows ----------

  /** A visit at or above p + rest is of a directory above it that is merged, or has no job. */
  ghost predicate Spares(v: Visit, q: Path) {
    HasJob(v) && v.path <= q ==> v.path != q && TaskOf(v.entry) == DirTask(false)
  }

  lemma {:induction false} VisitsSpare(p: Path, u: Upper, q: Path)
    requires Valid(u) && p != [] && (p <= q ==> IsIgnored(Dropped, p[|p| - 1], u) || ShowsLower(Dropped, Some(u), q[|p|..]))
    ensures forall v | v in Visits(p, u) :: Spares(v, q)
    decreases u, 1
  {
    if u.UpperDir? {
      VisitsOfSpare(p, u, u.entries, q);
    }
    assert p == q ==> q[|p|..] == [];
  }

  /** The same for the entries of a directory, if each that counts lets the lower layer show. */
  lemma {:induction false} VisitsOfSpare(p: Path, u: Upper, es: seq<(Name, Upper)>, q: Path)
    requires u.UpperDir? && Valid(u) && DistinctNames(es) && forall e | e in es :: e in u.entries && e.1 < u && Valid(e.1)
    requires p < q && !u.isOpaque ==> ShowsLower(Dropped, Find(Dropped, u.entries, q[|p|]), q[|p| + 1..])
    requires p < q ==> !u.isOpaque
    ensures forall v | v in VisitsOf(p, u, es) :: Spares(v, q)
    decreases u, 0, |es|
  {
    if es != [] {
      var (n, w) := es[0];
      assert es[0] in es;
      if p + [n] <= q {
        assert q[|p|] == n && q[|p + [n]|..] == q[|p| + 1..];
        var i :| 0 <= i < |u.entries| && u.entries[i] == es[0];
        if Counts(Dropped, u.entries, i) {
          FoundAt(Dropped, u.entries, i);
        }
      }
      VisitsSpare(p + [n], w, q);
      assert forall e | e in es[1..] :: e in es;
      VisitsOfSpare(p, u, es[1..], q);
    }
  }

  lemma {:induction false} RootSpares(u: Upper, q: Path)
    requires Valid(u) && u.UpperDir? && ShowsLower(Dropped, Some(WithPlainRoot(u)), q)
    ensures forall v | v in Visits([], u) :: Spares(v, q)
  {
    var plain := WithPlainRoot(u);
    PlainVisits(u, u.entries);
    assert forall e | e in plain.entries :: e.1 < plain && Valid(e.1);
    VisitsOfSpare([], plain, plain.entries, q);
  }

  /** The walk looks at the flag of the root in the root's own visit only. */
  lemma {:induction false} PlainVisits(u: Upper, es: seq<(Name, Upper)>)
    requires u.UpperDir? && forall e | e in es :: e.1 < u && e.1 < WithPlainRoot(u)
    ensures VisitsOf([], u, es) == VisitsOf([], WithPlainRoot(u), es)
    decreases |es|
  {
    if es != [] {
      PlainVisits(u, es[1..]);
    }
  }

  ghost predicate AllSpare(plan: seq<Job>, q: Path) {
    forall i | 0 <= i < |plan| && plan[i].Sync? && plan[i].path <= q :: plan[i].path != q && plan[i].task == DirTask(false)
  }

  lemma {:induction false} JobsSpare(vs: seq<Visit>, c: Cursor, q: Path)
    requires forall v | v in vs :: Spares(v, q)
    ensures AllSpare(Jobs(vs, c), q)
    decreases |vs|
  {
    if vs != [] {
      assert Spares(vs[0], q);
      JobsSpare(vs[1..], DirOf(vs[0].path), q);
    }
  }

  // ---------- the store there ----------

  /** Making or merging a directory leaves what is below it. */
  lemma {:induction false} MergeSpares(p: Path, l: Local, r: Remote, q: Path)
    requires LocalOk(DirTask(false), p, l, r) && p < q
    ensures Get(Rest(DirTask(false), p, l, r), q) == Get(r, q)
  {
    assert forall k | 0 <= k <= |p| :: p[..k] != q;
  }

  lemma {:induction false} IdealSpares(plan: seq<Job>, k: nat, r0: Remote, q: Path)
    requires WellQueued(plan) && WellFormed(r0) && k <= |plan| && AllSpare(plan, q)
    ensures Get(Ideal(plan, k, r0), q) == Get(r0, q)
  {
    if k > 0 {
      var before := Ideal(plan, k - 1, r0);
      IdealSpares(plan, k - 1, r0, q);
      IdealNext(plan, k - 1, r0);
      IdealGood(plan, k - 1, r0);
      if plan[k - 1].Sync? {
        DirsAbove(plan, k - 1, k - 1, before);
        assert TreeUnder(before, plan[k - 1].path);
        ApplyAt(plan[k - 1].task, plan[k - 1].path, before, q);
      }
    } else {
      assert plan[..0] == [];
    }
  }

  /** At such a path the store never changes, also under tasks that are part way through. */
  lemma {:induction false} StoreSpares(plan: seq<Job>, r0: Remote, w: World, q: Path)
    requires WellQueued(plan) && WellFormed(r0) && WorldInv(plan, r0, w) && AllSpare(plan, q) && Clean(w.failed, q)
    ensures Get(w.remote, q) == Get(r0, q)
  {
    var k := Handled(w.manager);
    IdealSpares(plan, k, r0, q);
    if i: nat :| Busy(w.locals, k, i) && plan[i].Sync? && plan[i].path <= q {
      var p := plan[i].path;
      assert Clean(w.failed, p) by {
        forall f | f in w.failed && f <= p
          ensures f <= q
        {
          PrefixTransitive(f, p, q);
        }
      }
      assert OnCourse(plan, w.locals, k, i, w.remote, r0);
      MergeSpares(p, w.locals[i], w.remote, q);
      assert Get(Rest(plan[i].task, p, w.locals[i], w.remote), q) == Get(Ideal(plan, k, r0), q);
    } else {
      assert Quiet(plan, w.locals, k, q);
    }
  }

  /** At every moment of a write-back, whatever the interleaving and whatever has failed, a path where
      the lower layer shows through the upper one, and that is not at or below a failed one, holds
      what it held at the start. */
  lemma {:induction false} MidwayFrame(u: Upper, r0: Remote, es: seq<Event>, w: World, q: Path)
    requires Valid(u) && u.UpperDir? && WellFormed(r0) && Run(Plan(u), Begin(Plan(u), r0), es, w)
    requires ShowsLower(Dropped, Some(WithPlainRoot(u)), q) && Clean(w.failed, q)
    ensures Get(w.remote, q) == Get(r0, q)
  {
    var plan := Plan(u);
    PlanIsWellQueued(u);
    BeginInv(plan, r0);
    RunKeeps(plan, r0, Begin(plan, r0), es, w);
    RootSpares(u, q);
    JobsSpare(Visits([], u), Unset, q);
    StoreSpares(plan, r0, w, q);
  }

  lemma {:induction false} RootIsQuiet(plan: seq<Job>, w: World)
    requires WellQueued(plan) && ManagerInv(plan, w.manager) && LocalsInv(plan, w) && 0 <= Handled(w.manager) <= |plan|
    ensures Quiet(plan, w.locals, Handled(w.manager), []) && Clean(w.failed, [])
  {
    assert forall i | 0 <= i < |plan| && plan[i].Sync? :: plan[i].path != [];
  }

  /** The root is a directory at every moment, and no failed path is at or above it. */
  lemma {:induction false} RootStays(u: Upper, r0: Remote, es: seq<Event>, w: World)
    requires Valid(u) && WellFormed(r0) && Run(Plan(u), Begin(Plan(u), r0), es, w)
    ensures IsDir(w.remote, []) && Clean(w.failed, [])
  {
    var plan := Plan(u);
    PlanIsWellQueued(u);
    BeginInv(plan, r0);
    RunKeeps(plan, r0, Begin(plan, r0), es, w);
    RootIsQuiet(plan, w);
    IdealGood(plan, Handled(w.manager), r0);
    RootAgrees(plan, r0, w);
  }

  lemma {:induction false} RootAgrees(plan: seq<Job>, r0: Remote, w: World)
    requires WorldInv(plan, r0, w) && Quiet(plan, w.locals, Handled(w.manager), []) && Clean(w.failed, [])
    ensures Get(w.remote, []) == Get(Ideal(plan, Handled(w.manager), r0), [])
  {
  }

  // ---------- what the overlay then shows ----------

  lemma {:induction false} DroppedShowsMore(m: Markers, u: Option<Upper>, q: Path)
    requires u.Some? ==> Valid(u.value)
    requires ShowsLower(m, u, q)
    ensures ShowsLower(Dropped, u, q)
    decreases |q|
  {
    if u.Some? {
      var es := u.value.entries;
      FoundIsValid(m, u.value, q[0]);
      DroppedShowsMore(m, Find(m, es, q[0]), q[1..]);
      FindHas(m, es, q[0]);
      FindHas(Dropped, es, q[0]);
      CountedByBoth(m, es, q[0]);
      if Find(Dropped, es, q[0]).Some? {
        var i := FoundIndex(Dropped, es, q[0]);
        assert Counts(m, es, i);
        FoundAt(m, es, i);
      }
    }
  }

  lemma {:induction false} PlainShowsMore(u: Upper, q: Path)
    requires u.UpperDir? && ShowsLower(Dropped, Some(u), q)
    ensures ShowsLower(Dropped, Some(WithPlainRoot(u)), q)
  {
  }

  /** Stopped at any moment, a write-back has lost nothing as long as the upper layer is still there:
      mounted over what is in the store then, it shows what it showed before, except at and below
      failed paths. */
  lemma {:induction false} MidwayShows(m: Markers, u: Upper, l: Tree, l': Tree, r0: Remote, es: seq<Event>, w: World, q: Path)
    requires Valid(u) && u.UpperDir? && l.Dir? && Holds(r0, [], Some(l)) && Holds(w.remote, [], Some(l'))
    requires Run(Plan(u), Begin(Plan(u), r0), es, w) && Clean(w.failed, q)
    ensures Look(Merge(m, u, Some(l')), q) == Look(Merge(m, u, Some(l)), q)
  {
    MergeIsView(m, u, Some(l), q);
    MergeIsView(m, u, Some(l'), q);
    OneLayerDecides(m, Some(u), Some(l), Some(l'), q);
    OneLayerDecides(m, Some(u), Some(l'), Some(l), q);
    if ShowsLower(m, Some(u), q) {
      DroppedShowsMore(m, Some(u), q);
      PlainShowsMore(u, q);
      TreeIsWellFormed(r0, Some(l));
      MidwayFrame(u, r0, es, w, q);
      assert [] + q == q;
      assert Get(w.remote, [] + q) == Look(Some(l'), q) && Get(r0, [] + q) == Look(Some(l), q);
    }
  }
}
