/** The walk over the upper layer that queues one job per entry, with barriers between directories. */
module Walk {
  import opened Trees
  import opened Overlay

  datatype Task = DeleteTask | FileTask(data: Data) | DirTask(isOpaque: bool)

  datatype Job = Barrier | Sync(path: Path, task: Task)

  /** One call of the walk's callback. */
  datatype Visit = Visit(path: Path, entry: Upper)

  /** The directory of the entry visited last; the root's own directory lies above the layer. */
  datatype Cursor = Unset | AboveRoot | Inside(dir: Path)

  function DirOf(p: Path): Cursor {
    if p == [] then AboveRoot else Inside(Parent(p))
  }

  function TaskOf(u: Upper): Task {
    match u
    case Whiteout => DeleteTask
    case UpperFile(d) => FileTask(d)
    case UpperDir(o, _) => DirTask(o)
  }

  /** The visits of a walk from p down: a directory first, then its entries in listing order. */
  function Visits(p: Path, u: Upper): seq<Visit>
    decreases u, 1
  {
    [Visit(p, u)] + if u.UpperDir? then VisitsOf(p, u, u.entries) else []
  }

  function VisitsOf(p: Path, u: Upper, es: seq<(Name, Upper)>): seq<Visit>
    requires forall e | e in es :: e.1 < u
    decreases u, 0, |es|
  {
    if es == [] then []
    else
      assert es[0] in es;
      Visits(p + [es[0].0], es[0].1) + VisitsOf(p, u, es[1..])
  }

  /** The root is skipped, and so are marker files. */
  predicate HasJob(v: Visit) {
    v.path != [] && !IsIgnored(Dropped, v.path[|v.path| - 1], v.entry)
  }

  function VisitJobs(v: Visit, c: Cursor): seq<Job> {
    (if c != DirOf(v.path) then [Barrier] else [])
    + if HasJob(v) then [Sync(v.path, TaskOf(v.entry))] else []
  }

  function Jobs(vs: seq<Visit>, c: Cursor): seq<Job> {
    if vs == [] then []
    else VisitJobs(vs[0], c) + Jobs(vs[1..], DirOf(vs[0].path))
  }

  function CursorAfter(vs: seq<Visit>, c: Cursor): Cursor {
    if vs == [] then c else DirOf(vs[|vs| - 1].path)
  }

  /** Everything one Sync call queues. */
  function Plan(u: Upper): seq<Job> {
    Jobs(Visits([], u), Unset)
  }

  // ---------- the walk itself ----------

  class Walker {
    var currentDirPath: Cursor
    var queued: seq<Job>

    constructor ()
      ensures currentDirPath == Unset && queued == []
    {
      currentDirPath, queued := Unset, [];
    }

    /** The callback: a barrier when the directory changes, then the entry's own job. */
    method Visited(path: Path, u: Upper)
      modifies this
      ensures queued == old(queued) + VisitJobs(Visit(path, u), old(currentDirPath))
      ensures currentDirPath == DirOf(path)
    {
      if currentDirPath != DirOf(path) {
        queued := queued + [Barrier];
        currentDirPath := DirOf(path);
      }
      if path == [] {
        return;
      }
      if u.UpperDir? {
        queued := queued + [Sync(path, DirTask(u.isOpaque))];
      } else if IsMarkerName(path[|path| - 1]) {
      } else if u.Whiteout? {
        queued := queued + [Sync(path, DeleteTask)];
      } else {
        queued := queued + [Sync(path, FileTask(u.data))];
      }
    }

    method WalkDir(path: Path, u: Upper)
      modifies this
      ensures queued == old(queued) + Jobs(Visits(path, u), old(currentDirPath))
      ensures currentDirPath == CursorAfter(Visits(path, u), old(currentDirPath))
      decreases u
    {
      ghost var done, start, q0 := [Visit(path, u)], currentDirPath, queued;
      Visited(path, u);
      OneVisit(Visit(path, u), start);
      if u.UpperDir? {
        var i := 0;
        while i < |u.entries|
          invariant 0 <= i <= |u.entries|
          invariant done != [] && done + VisitsOf(path, u, u.entries[i..]) == Visits(path, u)
          invariant queued == q0 + Jobs(done, start)
          invariant currentDirPath == CursorAfter(done, start)
        {
          var (n, v) := u.entries[i];
          WalkDir(path + [n], v);
          done := NextEntry(path, u, i, done, start, q0);
          i := i + 1;
        }
        assert u.entries[i..] == [];
      }
      assert done == Visits(path, u);
    }
  }

  lemma {:induction false} OneVisit(v: Visit, c: Cursor)
    ensures Jobs([v], c) == VisitJobs(v, c)
  {
    assert Jobs([v], c) == VisitJobs(v, c) + Jobs([], DirOf(v.path));
  }

  /** Bookkeeping for one round of the loop: the visits done grow by those of entry i. */
  lemma {:induction false} NextEntry(path: Path, u: Upper, i: nat, done: seq<Visit>, start: Cursor, q0: seq<Job>)
      returns (done': seq<Visit>)
    requires u.UpperDir? && i < |u.entries| && done != []
    requires done + VisitsOf(path, u, u.entries[i..]) == Visits(path, u)
    ensures var more := Visits(path + [u.entries[i].0], u.entries[i].1);
            && done' == done + more
            && q0 + Jobs(done', start) == q0 + Jobs(done, start) + Jobs(more, CursorAfter(done, start))
            && CursorAfter(done', start) == CursorAfter(more, CursorAfter(done, start))
    ensures done' + VisitsOf(path, u, u.entries[i + 1..]) == Visits(path, u)
  {
    var more := Visits(path + [u.entries[i].0], u.entries[i].1);
    done' := done + more;
    JobsAppend(done, more, start);
    assert u.entries[i..][1..] == u.entries[i + 1..];
    Associative(done, more, VisitsOf(path, u, u.entries[i + 1..]));
    Associative(q0, Jobs(done, start), Jobs(more, CursorAfter(done, start)));
  }

  lemma {:induction false} CursorAppend(a: seq<Visit>, b: seq<Visit>, c: Cursor)
    ensures CursorAfter(a + b, c) == CursorAfter(b, CursorAfter(a, c))
  {
    if b != [] {
      assert (a + b)[|a + b| - 1] == b[|b| - 1];
    } else {
      assert a + b == a;
    }
  }

  lemma {:induction false} JobsCons(v: Visit, vs: seq<Visit>, c: Cursor)
    ensures Jobs([v] + vs, c) == VisitJobs(v, c) + Jobs(vs, DirOf(v.path))
  {
    assert ([v] + vs)[1..] == vs;
  }

  lemma {:induction false} JobsAppend(a: seq<Visit>, b: seq<Visit>, c: Cursor)
    ensures Jobs(a + b, c) == Jobs(a, c) + Jobs(b, CursorAfter(a, c))
    ensures CursorAfter(a + b, c) == CursorAfter(b, CursorAfter(a, c))
  {
    CursorAppend(a, b, c);
    if a == [] {
      assert a + b == b;
    } else {
      var v, rest := a[0], a[1..];
      var d := DirOf(v.path);
      assert a == [v] + rest && a + b == [v] + (rest + b);
      CursorAppend([v], rest, c);
      JobsCons(v, rest, c);
      JobsCons(v, rest + b, c);
      JobsAppend(rest, b, d);
      Associative(VisitJobs(v, c), Jobs(rest, d), Jobs(b, CursorAfter(a, c)));
    }
  }

  // ---------- the order of the visits ----------

  /** No visit is at or above an earlier one. */
  ghost predicate Downward(vs: seq<Visit>) {
    forall i, j | 0 <= i < j < |vs| :: !(vs[j].path <= vs[i].path)
  }

  ghost predicate VisitedDir(vs: seq<Visit>, d: Path) {
    exists v :: v in vs && v.path == d && v.entry.UpperDir?
  }

  /** The ancestors of a visited path from depth top on have been visited before it. */
  ghost predicate AncestorsFirst(vs: seq<Visit>, top: nat) {
    forall i, k | 0 <= i < |vs| && top <= k < |vs[i].path| :: VisitedDir(vs[..i], vs[i].path[..k])
  }

  ghost predicate AllUnder(vs: seq<Visit>, p: Path) {
    forall i | 0 <= i < |vs| :: p <= vs[i].path
  }

  /** Every visit is at or below one of the named entries of p. */
  ghost predicate AllIn(vs: seq<Visit>, p: Path, es: seq<(Name, Upper)>) {
    forall i | 0 <= i < |vs| :: p < vs[i].path && Named(es, vs[i].path[|p|])
  }

  ghost predicate Named(es: seq<(Name, Upper)>, n: Name) {
    exists i :: 0 <= i < |es| && es[i].0 == n
  }

  lemma {:induction false} VisitsTopDown(p: Path, u: Upper)
    requires Valid(u)
    ensures var vs := Visits(p, u); AllUnder(vs, p) && Downward(vs) && AncestorsFirst(vs, |p|)
    decreases u, 1
  {
    if u.UpperDir? {
      VisitsOfTopDown(p, u, u.entries);
      HeadFirst(p, Visit(p, u), VisitsOf(p, u, u.entries));
    }
  }

  lemma {:induction false} HeadFirst(p: Path, v: Visit, rest: seq<Visit>)
    requires v.path == p && v.entry.UpperDir?
    requires (forall i | 0 <= i < |rest| :: p < rest[i].path) && Downward(rest) && AncestorsFirst(rest, |p| + 1)
    ensures var vs := [v] + rest; AllUnder(vs, p) && Downward(vs) && AncestorsFirst(vs, |p|)
  {
    var vs := [v] + rest;
    forall i, k | 0 <= i < |vs| && |p| <= k < |vs[i].path|
      ensures VisitedDir(vs[..i], vs[i].path[..k])
    {
      assert i > 0 && vs[i] == rest[i - 1] && vs[..i] == [v] + rest[..i - 1];
      assert v in vs[..i];
      if k > |p| {
        assert VisitedDir(rest[..i - 1], rest[i - 1].path[..k]);
      }
    }
    forall i, j | 0 <= i < j < |vs|
      ensures !(vs[j].path <= vs[i].path)
    {
      assert vs[j] == rest[j - 1] && p < rest[j - 1].path;
      if i > 0 {
        assert vs[i] == rest[i - 1];
      }
    }
  }

  lemma {:induction false} VisitsOfTopDown(p: Path, u: Upper, es: seq<(Name, Upper)>)
    requires u.UpperDir? && (forall e | e in es :: e.1 < u && Valid(e.1)) && DistinctNames(es)
    ensures var vs := VisitsOf(p, u, es); AllIn(vs, p, es) && Downward(vs) && AncestorsFirst(vs, |p| + 1)
    decreases u, 0, |es|
  {
    if es != [] {
      assert es[0] in es;
      var c := p + [es[0].0];
      VisitsTopDown(c, es[0].1);
      VisitsOfTopDown(p, u, es[1..]);
      SiblingsApart(p, es, Visits(c, es[0].1), VisitsOf(p, u, es[1..]));
      AncestorsAppend(|c|, Visits(c, es[0].1), VisitsOf(p, u, es[1..]));
    }
  }

  lemma {:induction false} SiblingsApart(p: Path, es: seq<(Name, Upper)>, a: seq<Visit>, b: seq<Visit>)
    requires es != [] && DistinctNames(es)
    requires AllUnder(a, p + [es[0].0]) && Downward(a) && AllIn(b, p, es[1..]) && Downward(b)
    ensures AllIn(a + b, p, es) && Downward(a + b)
  {
    var vs, c := a + b, p + [es[0].0];
    forall i | 0 <= i < |vs|
      ensures p < vs[i].path && Named(es, vs[i].path[|p|])
    {
      if i < |a| {
        assert c <= a[i].path && c[|p|] == es[0].0;
      } else {
        assert vs[i] == b[i - |a|];
        var m :| 0 <= m < |es[1..]| && es[1..][m].0 == vs[i].path[|p|];
        assert es[m + 1].0 == vs[i].path[|p|];
      }
    }
    forall i, j | 0 <= i < j < |vs|
      ensures !(vs[j].path <= vs[i].path)
    {
      if |a| <= j {
        assert vs[j] == b[j - |a|];
        if i < |a| {
          assert c <= a[i].path && c[|p|] == es[0].0;
          var m :| 0 <= m < |es[1..]| && es[1..][m].0 == vs[j].path[|p|];
          assert es[0].0 != es[m + 1].0;
          assert vs[i].path[|p|] != vs[j].path[|p|];
        } else {
          assert vs[i] == b[i - |a|];
        }
      }
    }
  }

  lemma {:induction false} AncestorsAppend(top: nat, a: seq<Visit>, b: seq<Visit>)
    requires AncestorsFirst(a, top) && AncestorsFirst(b, top)
    ensures AncestorsFirst(a + b, top)
  {
    var vs := a + b;
    forall i, k | 0 <= i < |vs| && top <= k < |vs[i].path|
      ensures VisitedDir(vs[..i], vs[i].path[..k])
    {
      if i < |a| {
        assert vs[..i] == a[..i];
      } else {
        assert vs[i] == b[i - |a|] && vs[..i] == a + b[..i - |a|];
        assert VisitedDir(b[..i - |a|], b[i - |a|].path[..k]);
      }
    }
  }

  // ---------- the order of the jobs ----------

  /** No job is at or above the path of an earlier one. */
  ghost predicate NeverAbove(js: seq<Job>) {
    forall i, j | 0 <= i < j < |js| && js[i].Sync? && js[j].Sync? :: !(js[j].path <= js[i].path)
  }

  /** The directories above a job have had their own jobs. */
  ghost predicate DirsQueuedFirst(js: seq<Job>) {
    forall i | 0 <= i < |js| && js[i].Sync? :: js[i].path != [] && DirsQueued(js[..i], js[i].path)
  }

  ghost predicate DirsQueued(js: seq<Job>, p: Path) {
    forall k | 0 < k < |p| :: QueuedDir(js, p[..k])
  }

  ghost predicate QueuedDir(js: seq<Job>, d: Path) {
    exists j :: j in js && j.Sync? && j.path == d && j.task.DirTask?
  }

  ghost predicate BarrierIn(js: seq<Job>, i: nat, j: nat) {
    exists b :: i < b < j && b < |js| && js[b] == Barrier
  }

  /** Without a barrier between them two jobs belong to the same directory. */
  ghost predicate OneDirPerEpoch(js: seq<Job>)
    requires DirsQueuedFirst(js)
  {
    forall i, j | 0 <= i < j < |js| && js[i].Sync? && js[j].Sync? ::
      Parent(js[i].path) == Parent(js[j].path) || BarrierIn(js, i, j)
  }

  /** The walk's promises about the queue. */
  ghost predicate WellQueued(js: seq<Job>) {
    NeverAbove(js) && DirsQueuedFirst(js) && OneDirPerEpoch(js)
  }

  /** What links the queue so far to the visits so far. */
  ghost predicate QueueOf(js: seq<Job>, vs: seq<Visit>) {
    && (forall j | j in js && j.Sync? :: exists v :: v in vs && v.path == j.path)
    && (forall v | v in vs && HasJob(v) :: Sync(v.path, TaskOf(v.entry)) in js)
  }

  /** The jobs since the last barrier belong to the walk's current directory. */
  ghost predicate Current(js: seq<Job>, c: Cursor) {
    forall i | 0 <= i < |js| && js[i].Sync? :: js[i].path != [] && (c == Inside(Parent(js[i].path)) || BarrierIn(js, i, |js|))
  }

  lemma {:induction false} NoVisitsKept()
    ensures Kept(Jobs([], Unset), [], CursorAfter([], Unset))
  {
  }

  /** v may come after these visits: it is at or above none of them, and the directories above it have
      been visited. */
  ghost predicate MayFollow(before: seq<Visit>, v: Visit) {
    && (forall u | u in before :: !(v.path <= u.path))
    && forall k | 0 <= k < |v.path| :: VisitedDir(before, v.path[..k])
  }

  ghost predicate OneByOne(vs: seq<Visit>)
    decreases |vs|
  {
    vs != [] ==> var n := |vs| - 1; OneByOne(vs[..n]) && MayFollow(vs[..n], vs[n])
  }

  lemma {:induction false} NextVisit(vs: seq<Visit>, n: nat)
    requires Downward(vs) && AncestorsFirst(vs, 0) && n < |vs|
    ensures MayFollow(vs[..n], vs[n])
  {
    forall u | u in vs[..n]
      ensures !(vs[n].path <= u.path)
    {
      var i :| 0 <= i < |vs[..n]| && vs[..n][i] == u;
      assert vs[i] == u;
    }
  }

  lemma {:induction false} TopDownOneByOne(vs: seq<Visit>, n: nat)
    requires Downward(vs) && AncestorsFirst(vs, 0) && n <= |vs|
    ensures OneByOne(vs[..n])
    decreases n
  {
    if n > 0 {
      assert vs[..n][..n - 1] == vs[..n - 1];
      TopDownOneByOne(vs, n - 1);
      NextVisit(vs, n - 1);
    }
  }

  lemma {:induction false} OneByOneKept(vs: seq<Visit>)
    requires OneByOne(vs)
    ensures Kept(Jobs(vs, Unset), vs, CursorAfter(vs, Unset))
    decreases |vs|
  {
    if vs == [] {
      NoVisitsKept();
    } else {
      var before, v := vs[..|vs| - 1], vs[|vs| - 1];
      assert vs == before + [v];
      OneByOneKept(before);
      VisitKeeps(before, v);
    }
  }

  lemma {:induction false} QueueKept(vs: seq<Visit>)
    requires Downward(vs) && AncestorsFirst(vs, 0)
    ensures Kept(Jobs(vs, Unset), vs, CursorAfter(vs, Unset))
  {
    assert vs[..|vs|] == vs;
    TopDownOneByOne(vs, |vs|);
    OneByOneKept(vs);
  }

  /** The queue after one more visit: maybe a barrier, then maybe the entry's job. */
  lemma {:induction false} JobsSnoc(vs: seq<Visit>, v: Visit)
    ensures var c := CursorAfter(vs, Unset);
            var mid := Jobs(vs, Unset) + if c != DirOf(v.path) then [Barrier] else [];
            Jobs(vs + [v], Unset) == if HasJob(v) then mid + [Sync(v.path, TaskOf(v.entry))] else mid
  {
    var c := CursorAfter(vs, Unset);
    JobsAppend(vs, [v], Unset);
    assert Jobs([v], c) == VisitJobs(v, c) + Jobs([], DirOf(v.path)) == VisitJobs(v, c);
  }

  ghost predicate Kept(js: seq<Job>, vs: seq<Visit>, c: Cursor) {
    WellQueued(js) && QueueOf(js, vs) && Current(js, c)
  }

  lemma {:induction false} VisitKeeps(vs: seq<Visit>, v: Visit)
    requires Kept(Jobs(vs, Unset), vs, CursorAfter(vs, Unset)) && MayFollow(vs, v)
    ensures Kept(Jobs(vs + [v], Unset), vs + [v], CursorAfter(vs + [v], Unset))
  {
    var c := CursorAfter(vs, Unset);
    var mid := Jobs(vs, Unset) + if c != DirOf(v.path) then [Barrier] else [];
    JobsSnoc(vs, v);
    BarrierKeeps(Jobs(vs, Unset), vs, c, DirOf(v.path));
    if HasJob(v) {
      JobKeeps(mid, vs, v);
    } else {
      SkipKeeps(mid, vs, v);
    }
  }

  lemma {:induction false} SkipKeeps(js: seq<Job>, vs: seq<Visit>, v: Visit)
    requires QueueOf(js, vs) && !HasJob(v)
    ensures QueueOf(js, vs + [v])
  {
    assert forall u | u in vs :: u in vs + [v];
    assert forall u | u in vs + [v] :: u in vs || u == v;
  }

  lemma {:induction false} BarrierInLonger(js: seq<Job>, more: seq<Job>, i: nat, j: nat)
    requires BarrierIn(js, i, j)
    ensures BarrierIn(js + more, i, j)
  {
    var b :| i < b < j && b < |js| && js[b] == Barrier;
    assert (js + more)[b] == Barrier;
  }

  lemma {:induction false} BarrierKeeps(js: seq<Job>, vs: seq<Visit>, c: Cursor, c': Cursor)
    requires Kept(js, vs, c)
    ensures Kept(js + (if c != c' then [Barrier] else []), vs, c')
  {
    if c == c' {
      assert js + [] == js;
    } else {
      BarrierOrder(js);
      BarrierEpoch(js, c');
      var js' := js + [Barrier];
      assert forall j | j in js' && j.Sync? :: j in js;
      assert forall j | j in js :: j in js';
    }
  }

  lemma {:induction false} BarrierOrder(js: seq<Job>)
    requires NeverAbove(js) && DirsQueuedFirst(js)
    ensures NeverAbove(js + [Barrier]) && DirsQueuedFirst(js + [Barrier])
  {
    var js' := js + [Barrier];
    assert forall i | 0 <= i < |js| :: js'[i] == js[i] && js'[..i] == js[..i];
  }

  lemma {:induction false} BarrierEpoch(js: seq<Job>, c: Cursor)
    requires DirsQueuedFirst(js) && DirsQueuedFirst(js + [Barrier]) && OneDirPerEpoch(js)
    ensures OneDirPerEpoch(js + [Barrier]) && Current(js + [Barrier], c)
  {
    var js' := js + [Barrier];
    assert js'[|js|] == Barrier;
    forall i, j | 0 <= i < j < |js'| && js'[i].Sync? && js'[j].Sync?
      ensures Parent(js'[i].path) == Parent(js'[j].path) || BarrierIn(js', i, j)
    {
      if BarrierIn(js, i, j) {
        BarrierInLonger(js, [Barrier], i, j);
      }
    }
  }

  lemma {:induction false} JobKeeps(js: seq<Job>, vs: seq<Visit>, v: Visit)
    requires Kept(js, vs, DirOf(v.path)) && HasJob(v)
    requires forall u | u in vs :: !(v.path <= u.path)
    requires forall k | 0 <= k < |v.path| :: VisitedDir(vs, v.path[..k])
    ensures Kept(js + [Sync(v.path, TaskOf(v.entry))], vs + [v], DirOf(v.path))
  {
    JobOrder(js, vs, v);
    EpochGrows(js, Sync(v.path, TaskOf(v.entry)));
    QueueOfGrows(js, vs, v);
  }

  lemma {:induction false} JobOrder(js: seq<Job>, vs: seq<Visit>, v: Visit)
    requires NeverAbove(js) && DirsQueuedFirst(js) && QueueOf(js, vs) && HasJob(v)
    requires forall u | u in vs :: !(v.path <= u.path)
    requires forall k | 0 <= k < |v.path| :: VisitedDir(vs, v.path[..k])
    ensures var js' := js + [Sync(v.path, TaskOf(v.entry))]; NeverAbove(js') && DirsQueuedFirst(js')
  {
    var js' := js + [Sync(v.path, TaskOf(v.entry))];
    assert forall i | 0 <= i < |js| :: js'[i] == js[i] && js'[..i] == js[..i];
    assert js'[..|js|] == js;
    forall i | 0 <= i < |js| && js[i].Sync?
      ensures !(v.path <= js[i].path)
    {
      assert js[i] in js;
    }
    forall k | 0 < k < |v.path|
      ensures QueuedDir(js, v.path[..k])
    {
      assert VisitedDir(vs, v.path[..k]);
      var u :| u in vs && u.path == v.path[..k] && u.entry.UpperDir?;
      assert Sync(u.path, TaskOf(u.entry)) in js;
    }
  }

  lemma {:induction false} EpochGrows(js: seq<Job>, job: Job)
    requires job.Sync? && job.path != [] && Current(js, DirOf(job.path))
    requires DirsQueuedFirst(js) && DirsQueuedFirst(js + [job]) && OneDirPerEpoch(js)
    ensures OneDirPerEpoch(js + [job]) && Current(js + [job], DirOf(job.path))
  {
    var js' := js + [job];
    forall i | 0 <= i < |js'| && js'[i].Sync?
      ensures js'[i].path != [] && (DirOf(job.path) == Inside(Parent(js'[i].path)) || BarrierIn(js', i, |js'|))
    {
      if i < |js| && BarrierIn(js, i, |js|) {
        BarrierInLonger(js, [job], i, |js|);
      }
    }
    forall i, j | 0 <= i < j < |js'| && js'[i].Sync? && js'[j].Sync?
      ensures Parent(js'[i].path) == Parent(js'[j].path) || BarrierIn(js', i, j)
    {
      if BarrierIn(js, i, j) {
        BarrierInLonger(js, [job], i, j);
      }
    }
  }

  lemma {:induction false} QueueOfGrows(js: seq<Job>, vs: seq<Visit>, v: Visit)
    requires QueueOf(js, vs) && HasJob(v)
    ensures QueueOf(js + [Sync(v.path, TaskOf(v.entry))], vs + [v])
  {
    var job := Sync(v.path, TaskOf(v.entry));
    var js', vs' := js + [job], vs + [v];
    assert js'[|js|] == job && vs'[|vs|] == v;
    assert forall j | j in js' :: j in js || j == job;
    assert forall j | j in js :: j in js';
    forall j | j in js' && j.Sync?
      ensures exists u :: u in vs' && u.path == j.path
    {
      if j in js {
        var u :| u in vs && u.path == j.path;
        assert u in vs';
      }
    }
  }

  /** The queue of every upper layer keeps the walk's promises. */
  lemma {:induction false} PlanIsWellQueued(u: Upper)
    requires Valid(u)
    ensures WellQueued(Plan(u))
  {
    var vs := Visits([], u);
    VisitsTopDown([], u);
    QueueKept(vs);
  }

  /** Without a barrier between them two jobs are on paths apart from each other; and a job is
      always separated by a barrier from the jobs below it. */
  lemma {:induction false} EpochsAreDisjoint(js: seq<Job>, i: nat, j: nat)
    requires WellQueued(js) && i < j < |js| && js[i].Sync? && js[j].Sync?
    ensures !BarrierIn(js, i, j) ==> Parent(js[i].path) == Parent(js[j].path) && Apart(js[i].path, js[j].path)
    ensures js[i].path < js[j].path ==> BarrierIn(js, i, j)
  {
    var p, q := js[i].path, js[j].path;
    if p < q {
      assert p <= Parent(q) == q[..|q| - 1];
      assert |Parent(p)| < |Parent(q)|;
    }
    if Parent(p) == Parent(q) {
      assert p <= q ==> p == q;
    }
  }

  lemma {:induction false} NeighboursUnparted(a: seq<Visit>, v: Visit, w: Visit, b: seq<Visit>, c: Cursor) returns (i: nat)
    requires HasJob(v) && HasJob(w) && Parent(v.path) == Parent(w.path)
    ensures var js := Jobs(a + [v, w] + b, c);
            i + 1 < |js| && js[i] == Sync(v.path, TaskOf(v.entry)) && js[i + 1] == Sync(w.path, TaskOf(w.entry))
  {
    var mid := CursorAfter(a, c);
    JobsAppend(a + [v, w], b, c);
    JobsAppend(a, [v, w], c);
    assert [v, w] == [v] + [w];
    JobsCons(v, [w], mid);
    OneVisit(w, DirOf(v.path));
    i := |Jobs(a, c)| + |VisitJobs(v, mid)| - 1;
  }

  /** Two entries of one directory that the walk visits one after the other are queued with no barrier
      between them, so that they can be synced side by side. */
  lemma {:induction false} SiblingsUnparted(u: Upper, a: seq<Visit>, v: Visit, w: Visit, b: seq<Visit>) returns (i: nat)
    requires Visits([], u) == a + [v, w] + b && HasJob(v) && HasJob(w) && Parent(v.path) == Parent(w.path)
    ensures i + 1 < |Plan(u)| && Plan(u)[i] == Sync(v.path, TaskOf(v.entry)) && Plan(u)[i + 1] == Sync(w.path, TaskOf(w.entry))
  {
    i := NeighboursUnparted(a, v, w, b, Unset);
  }
}
