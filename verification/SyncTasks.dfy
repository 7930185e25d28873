/** The sync tasks: what each does to the remote store, call by call and as a whole. */
module SyncTasks {
  import opened Trees
  import opened Walk

  // ---------- remote calls that succeed ----------

  /** RemoveDir with recursion. */
  function RemoveTree(r: Remote, p: Path): Remote {
    map q | q in r && !(p <= q) :: r[q]
  }

  function RemoveBelow(r: Remote, p: Path): Remote {
    map q | q in r && !(p < q) :: r[q]
  }

  function PutFile(r: Remote, p: Path, d: Data): Remote {
    r[p := FileNode(d)]
  }

  function Prefixes(p: Path): set<Path> {
    set k | 0 <= k <= |p| :: p[..k]
  }

  /** MakeDir with recursion: every missing directory on the way is made. */
  function MakeDirs(r: Remote, p: Path): Remote {
    map q | q in r.Keys + Prefixes(p) :: if q in r then r[q] else DirNode
  }

  /** An entry as List reports it: its name, and whether it is a directory. */
  type Listed = (Name, bool)

  predicate Covers(p: Path, e: Listed, q: Path) {
    if e.1 then p + [e.0] <= q else p + [e.0] == q
  }

  function RemoveListed(r: Remote, p: Path, e: Listed): Remote {
    if e.1 then RemoveTree(r, p + [e.0]) else r - {p + [e.0]}
  }

  function RemoveAllListed(r: Remote, p: Path, todo: seq<Listed>): Remote {
    if todo == [] then r else RemoveAllListed(RemoveListed(r, p, todo[0]), p, todo[1..])
  }

  predicate AsListed(r: Remote, p: Path, e: Listed) {
    p + [e.0] in r && (e.1 <==> r[p + [e.0]] == DirNode)
  }

  /** todo may still be removed one by one. */
  predicate Pending(r: Remote, p: Path, todo: seq<Listed>) {
    && (forall i, j | 0 <= i < j < |todo| :: todo[i].0 != todo[j].0)
    && (forall i | 0 <= i < |todo| :: AsListed(r, p, todo[i]))
  }

  /** todo is what List returns for p, in any order. */
  ghost predicate IsListing(r: Remote, p: Path, todo: seq<Listed>) {
    Pending(r, p, todo) && forall n: Name | p + [n] in r :: exists i :: 0 <= i < |todo| && todo[i].0 == n
  }

  // ---------- a task as a sequence of calls ----------

  /** Where a running task stands: before its Stat, before one of the calls it chose, or done. */
  datatype Local = Start | RmDir | RmFile | MkDir | Upload | Listing | Clearing(todo: seq<Listed>) | Done

  function AfterStat(t: Task, found: Option<Node>): Local {
    match t
    case DeleteTask => if found.None? then Done else if found.value.DirNode? then RmDir else RmFile
    case FileTask(_) => if found == Some(DirNode) then RmDir else Upload
    case DirTask(o) =>
      if found.None? then MkDir
      else if found.value.FileNode? then RmFile
      else if o then Listing else Done
  }

  /** One remote call of a task, succeeding. */
  ghost predicate Step(t: Task, p: Path, l: Local, r: Remote, l': Local, r': Remote) {
    match l
    case Start => r' == r && l' == AfterStat(t, Get(r, p))
    case RmDir => IsDir(r, p) && r' == RemoveTree(r, p) && l' == if t.FileTask? then Upload else Done
    case RmFile => p in r && r[p].FileNode? && r' == r - {p} && l' == if t.DirTask? then MkDir else Done
    case MkDir => (forall k | 0 <= k < |p| && p[..k] in r :: IsDir(r, p[..k])) && p !in r && r' == MakeDirs(r, p) && l' == Done
    case Upload => t.FileTask? && p != [] && IsDir(r, Parent(p)) && !IsDir(r, p) && r' == PutFile(r, p, t.data) && l' == Done
    case Listing => IsDir(r, p) && r' == r && l'.Clearing? && IsListing(r, p, l'.todo)
    case Clearing(todo) =>
      if todo == [] then r' == r && l' == Done
      else AsListed(r, p, todo[0]) && r' == RemoveListed(r, p, todo[0]) && l' == Clearing(todo[1..])
    case Done => false
  }

  /** The whole task as one change. */
  function Apply(t: Task, p: Path, r: Remote): Remote {
    Rest(t, p, AfterStat(t, Get(r, p)), r)
  }

  /** What the calls still to come make of r. */
  function Rest(t: Task, p: Path, l: Local, r: Remote): Remote
    decreases l == Start
  {
    match l
    case Start => Rest(t, p, AfterStat(t, Get(r, p)), r)
    case RmDir => if t.FileTask? then PutFile(RemoveTree(r, p), p, t.data) else RemoveTree(r, p)
    case RmFile => if t.DirTask? then MakeDirs(r - {p}, p) else r - {p}
    case MkDir => MakeDirs(r, p)
    case Upload => if t.FileTask? then PutFile(r, p, t.data) else r
    case Listing => RemoveBelow(r, p)
    case Clearing(todo) => RemoveAllListed(r, p, todo)
    case Done => r
  }

  /** What a task has learnt and may rely on; it speaks only of its own subtree. */
  ghost predicate LocalOk(t: Task, p: Path, l: Local, r: Remote) {
    match l
    case Start => TreeUnder(r, p)
    case RmDir => !t.DirTask? && IsDir(r, p)
    case RmFile => !t.FileTask? && p in r && r[p].FileNode?
    case MkDir => t.DirTask? && p !in r
    case Upload => t.FileTask? && !IsDir(r, p)
    case Listing => t == DirTask(true) && IsDir(r, p) && TreeUnder(r, p)
    case Clearing(todo) => t == DirTask(true) && Pending(r, p, todo)
    case Done => true
  }

  /** r' differs from r only at and below p and by directories made above p. */
  ghost predicate Touches(p: Path, r: Remote, r': Remote) {
    forall q: Path | Get(r', q) != Get(r, q) :: p <= q || (q <= p && q !in r)
  }

  // ---------- lemmas about one task ----------

  lemma {:induction false} RemoveAllListedAt(r: Remote, p: Path, todo: seq<Listed>, q: Path)
    ensures Get(RemoveAllListed(r, p, todo), q) ==
            if exists i :: 0 <= i < |todo| && Covers(p, todo[i], q) then None else Get(r, q)
    decreases |todo|
  {
    if todo != [] {
      RemoveAllListedAt(RemoveListed(r, p, todo[0]), p, todo[1..], q);
      assert forall i | 0 <= i < |todo[1..]| :: todo[1..][i] == todo[i + 1];
      assert forall i | 1 <= i < |todo| :: todo[i] == todo[1..][i - 1];
    }
  }

  /** Removing all that List reported empties the directory. */
  lemma {:induction false} ListingEmpties(r: Remote, p: Path, todo: seq<Listed>)
    requires TreeUnder(r, p) && IsListing(r, p, todo)
    ensures RemoveAllListed(r, p, todo) == RemoveBelow(r, p)
  {
    forall q: Path
      ensures Get(RemoveAllListed(r, p, todo), q) == Get(RemoveBelow(r, p), q)
    {
      RemoveAllListedAt(r, p, todo, q);
      if q in r && p < q {
        var c := p + [q[|p|]];
        assert q[..|c|] == c;
        AncestorIsDir(r, p, q);
        assert |c| == |q| ==> c == q;
        assert |c| < |q| ==> IsDir(r, q[..|c|]);
        assert c in r;
        var i :| 0 <= i < |todo| && todo[i].0 == q[|p|];
        assert AsListed(r, p, todo[i]);
        assert Covers(p, todo[i], q);
      } else if exists i :: 0 <= i < |todo| && Covers(p, todo[i], q) {
        var i :| 0 <= i < |todo| && Covers(p, todo[i], q);
        assert p < p + [todo[i].0] <= q;
      }
    }
    SameEntries(RemoveAllListed(r, p, todo), RemoveBelow(r, p));
  }

  lemma {:induction false} SameEntries(r: Remote, r': Remote)
    requires forall q: Path :: Get(r, q) == Get(r', q)
    ensures r == r'
  {
    assert forall q: Path :: (q in r <==> Get(r, q).Some?) && (q in r' <==> Get(r', q).Some?);
  }

  lemma {:induction false} PendingShrinks(r: Remote, p: Path, todo: seq<Listed>)
    requires todo != [] && Pending(r, p, todo)
    ensures Pending(RemoveListed(r, p, todo[0]), p, todo[1..])
  {
    forall i | 0 <= i < |todo[1..]|
      ensures AsListed(RemoveListed(r, p, todo[0]), p, todo[1..][i])
    {
      var e := todo[i + 1];
      assert AsListed(r, p, e) && e.0 != todo[0].0;
      assert (p + [e.0])[|p|] != (p + [todo[0].0])[|p|];
    }
  }

  /** A call moves the task on without changing what it will have done in the end. */
  lemma {:induction false} StepKeepsRest(t: Task, p: Path, l: Local, r: Remote, l': Local, r': Remote)
    requires LocalOk(t, p, l, r) && Step(t, p, l, r, l', r')
    ensures Rest(t, p, l', r') == Rest(t, p, l, r)
    ensures LocalOk(t, p, l', r')
  {
    match l {
      case Listing => ListingEmpties(r, p, l'.todo);
      case Clearing(todo) => if todo != [] { PendingShrinks(r, p, todo); }
      case _ =>
    }
  }

  lemma {:induction false} StepTouches(t: Task, p: Path, l: Local, r: Remote, l': Local, r': Remote)
    requires Step(t, p, l, r, l', r')
    ensures Touches(p, r, r')
  {
    if l.Clearing? && l.todo != [] {
      var c := p + [l.todo[0].0];
      forall q: Path | Get(r', q) != Get(r, q)
        ensures p <= q
      {
        assert c <= q;
        PrefixTransitive(p, c, q);
      }
    } else if l.MkDir? {
      assert forall q | q in Prefixes(p) :: q <= p;
    }
  }

  /** What remains of a task depends on its own subtree only. */
  lemma {:induction false} RestIsLocal(t: Task, p: Path, l: Local, r: Remote, s: Remote)
    requires AgreeUnder(r, s, p)
    ensures AgreeUnder(Rest(t, p, l, r), Rest(t, p, l, s), p)
    ensures LocalOk(t, p, l, r) ==> LocalOk(t, p, l, s)
  {
    assert Get(r, p) == Get(s, p);
    assert p in r <==> p in s;
    match l {
      case Start => RestIsLocalAfterStat(t, p, AfterStat(t, Get(r, p)), r, s); TreeUnderIsLocal(p, r, s);
      case Listing => TreeUnderIsLocal(p, r, s);
      case Clearing(todo) => RestIsLocalAfterStat(t, p, l, r, s); PendingIsLocal(p, todo, r, s);
      case _ =>
    }
    if l != Start {
      RestIsLocalAfterStat(t, p, l, r, s);
    }
  }

  lemma {:induction false} TreeUnderIsLocal(p: Path, r: Remote, s: Remote)
    requires AgreeUnder(r, s, p)
    ensures TreeUnder(r, p) ==> TreeUnder(s, p)
  {
    if TreeUnder(r, p) {
      forall q: Path | q in s && p < q
        ensures IsDir(s, Parent(q))
      {
        assert Get(r, q) == Get(s, q) && Get(r, Parent(q)) == Get(s, Parent(q));
      }
    }
  }

  lemma {:induction false} PendingIsLocal(p: Path, todo: seq<Listed>, r: Remote, s: Remote)
    requires AgreeUnder(r, s, p)
    ensures Pending(r, p, todo) ==> Pending(s, p, todo)
  {
    forall i | 0 <= i < |todo|
      ensures AsListed(r, p, todo[i]) ==> AsListed(s, p, todo[i])
    {
      assert Get(r, p + [todo[i].0]) == Get(s, p + [todo[i].0]);
    }
  }

  lemma {:induction false} RestIsLocalAfterStat(t: Task, p: Path, l: Local, r: Remote, s: Remote)
    requires AgreeUnder(r, s, p) && l != Start
    ensures AgreeUnder(Rest(t, p, l, r), Rest(t, p, l, s), p)
  {
    forall q: Path | p <= q
      ensures Get(Rest(t, p, l, r), q) == Get(Rest(t, p, l, s), q)
    {
      assert Get(r, q) == Get(s, q);
      if l.Clearing? {
        RemoveAllListedAt(r, p, l.todo, q);
        RemoveAllListedAt(s, p, l.todo, q);
      }
    }
  }

  predicate AncestorsAreDirs(r: Remote, p: Path) {
    forall k | 0 <= k < |p| :: IsDir(r, p[..k])
  }

  lemma {:induction false} ParentGivesAncestors(p: Path, r: Remote)
    requires p != [] && WellFormed(r) && IsDir(r, Parent(p))
    ensures AncestorsAreDirs(r, p)
  {
    AncestorIsDir(r, [], Parent(p));
    forall k | 0 <= k < |p|
      ensures IsDir(r, p[..k])
    {
      if k < |p| - 1 {
        assert p[..k] == Parent(p)[..k];
      } else {
        assert p[..k] == Parent(p);
      }
    }
  }

  lemma {:induction false} MakeDirsHere(p: Path, r: Remote)
    requires AncestorsAreDirs(r, p)
    ensures MakeDirs(r, p) == if p in r then r else r[p := DirNode]
  {
    forall q | q in Prefixes(p) && q != p
      ensures q in r
    {
      var k :| 0 <= k <= |p| && q == p[..k];
      assert k == |p| ==> q == p;
    }
    assert p == p[..|p|] && p in Prefixes(p);
  }

  /** What a task leaves at its own path. */
  function NodeAfter(t: Task): Option<Node> {
    match t
    case DeleteTask => None
    case FileTask(d) => Some(FileNode(d))
    case DirTask(_) => Some(DirNode)
  }

  /** A task whose ancestors are directories puts its own entry at its path, keeps what is below
      only when it merges a directory, and changes nothing else. */
  lemma {:induction false} ApplyAt(t: Task, p: Path, r: Remote, q: Path)
    requires AncestorsAreDirs(r, p) && TreeUnder(r, p)
    ensures Get(Apply(t, p, r), q) ==
            if !(p <= q) then Get(r, q)
            else if q == p then NodeAfter(t)
            else if t == DirTask(false) then Get(r, q) else None
  {
    if p < q && !IsDir(r, p) {
      NothingBelow(r, p, q);
    }
    if t.DirTask? {
      DirTaskMakes(t, p, r);
    }
  }

  lemma {:induction false} DirTaskMakes(t: Task, p: Path, r: Remote)
    requires AncestorsAreDirs(r, p) && t.DirTask?
    ensures Apply(t, p, r) ==
            if !IsDir(r, p) then r[p := DirNode]
            else if t.isOpaque then RemoveBelow(r, p) else r
  {
    MakeDirsHere(p, r);
    forall k | 0 <= k < |p|
      ensures IsDir(r - {p}, p[..k])
    {
      assert p[..k] != p && IsDir(r, p[..k]);
    }
    MakeDirsHere(p, r - {p});
    assert p in r ==> (r - {p})[p := DirNode] == r[p := DirNode];
  }

  /** Such a task leaves a tree. */
  lemma {:induction false} ApplyIsLocal(t: Task, p: Path, r: Remote)
    requires p != [] && WellFormed(r) && IsDir(r, Parent(p))
    ensures AgreeOutside(r, Apply(t, p, r), p)
    ensures WellFormed(Apply(t, p, r))
  {
    ParentGivesAncestors(p, r);
    var r' := Apply(t, p, r);
    assert TreeUnder(r, p);
    forall q: Path
      ensures !(p <= q) ==> Get(r, q) == Get(r', q)
    {
      ApplyAt(t, p, r, q);
    }
    ApplyAt(t, p, r, []);
    forall q: Path | q in r' && [] < q
      ensures IsDir(r', Parent(q))
    {
      ApplyAt(t, p, r, q);
      ApplyAt(t, p, r, Parent(q));
      assert q in r || q == p;
      assert p <= Parent(q) ==> p <= q;
      assert Get(r', Parent(q)) == Some(DirNode);
    }
  }

  lemma {:induction false} EnumerateNames(r: Remote, p: Path, names: set<Name>) returns (todo: seq<Listed>)
    requires forall n | n in names :: p + [n] in r
    ensures Pending(r, p, todo)
    ensures forall n :: n in names <==> exists i :: 0 <= i < |todo| && todo[i].0 == n
    decreases |names|
  {
    if names == {} {
      todo := [];
    } else {
      var n :| n in names;
      var rest := EnumerateNames(r, p, names - {n});
      assert forall i | 0 <= i < |rest| :: rest[i].0 in names - {n};
      todo := [(n, r[p + [n]] == DirNode)] + rest;
      forall m | m in names
        ensures exists i :: 0 <= i < |todo| && todo[i].0 == m
      {
        if m != n {
          assert m in names - {n};
          var i :| 0 <= i < |rest| && rest[i].0 == m;
          assert todo[i + 1].0 == m;
        } else {
          assert todo[0].0 == n;
        }
      }
    }
  }

  /** A task whose ancestors are directories is never stuck for want of what it expects:
      only the remote side can make it fail. */
  lemma {:induction false} TaskCanProceed(t: Task, p: Path, l: Local, r: Remote) returns (l': Local, r': Remote)
    requires l != Done && p != [] && LocalOk(t, p, l, r) && AncestorsAreDirs(r, p)
    ensures Step(t, p, l, r, l', r')
  {
    match l {
      case Start => l', r' := AfterStat(t, Get(r, p)), r;
      case RmDir => l', r' := if t.FileTask? then Upload else Done, RemoveTree(r, p);
      case RmFile => l', r' := if t.DirTask? then MkDir else Done, r - {p};
      case MkDir => l', r' := Done, MakeDirs(r, p);
      case Upload => l', r' := Done, PutFile(r, p, t.data); assert Parent(p) == p[..|p| - 1];
      case Listing =>
        var names := set q | q in r && |q| == |p| + 1 && p <= q :: q[|p|];
        forall n: Name
          ensures n in names <==> p + [n] in r
        {
          if n in names {
            var q :| q in r && |q| == |p| + 1 && p <= q && q[|p|] == n;
            assert q == p + [n];
          }
        }
        var todo := EnumerateNames(r, p, names);
        l', r' := Clearing(todo), r;
      case Clearing(todo) =>
        if todo == [] {
          l', r' := Done, r;
        } else {
          assert AsListed(r, p, todo[0]);
          l', r' := Clearing(todo[1..]), RemoveListed(r, p, todo[0]);
        }
    }
  }
}
