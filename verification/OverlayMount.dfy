/** An overlay volume on the node: the iRODS collection below, the upper layer above, and what mounting
    and unmounting do to them. */
module OverlayMount {
  import opened Trees
  import opened Overlay
  import opened OverlayChange
  import opened Walk
  import opened SyncRace
  import opened SyncInOrder
  import opened SyncMidway
  import opened SyncRuns

  /** markers says whether the overlay driver in use shows marker files; tree is the collection in
      iRODS, upper the directory of changes if there is one. Mounting over a mounted path stacks, so
      lowerMounts counts. syncing says that the background write-back has not ended yet. */
  datatype State = State(markers: Markers, tree: Tree, upper: Option<Upper>, lowerMounts: nat, mounted: bool, syncing: bool)

  /** How mounting something ends; leftover and cleaned say what a failed attempt and the clean-up
      after it did. */
  datatype Attempt = Works | Fails(leftover: bool, cleaned: bool)

  datatype MountEnv = MountEnv(lowerDirFails: bool, lower: Attempt, upperDirFails: bool, workDirFails: bool, overlay: Attempt)

  datatype UnmountEnv = UnmountEnv(targetFails: bool, lowerFails: bool)

  /** How the write-back ends: whether it finished or was cut short, what it made of the collection,
      which tasks failed, and what the deletion left of the upper layer. */
  datatype SyncEnv = SyncEnv(finished: bool, tree: Tree, failed: set<Path>, left: Option<Upper>)

  // ---------- what happens ----------

  const EMPTY_UPPER := UpperDir(false, [])

  /** The mounts at a path after an attempt, and after the clean-up if it failed. */
  function Stack(n: nat, a: Attempt): nat {
    match a
    case Works => n + 1
    case Fails(leftover, cleaned) =>
      var m := if leftover then n + 1 else n;
      if cleaned && m > 0 then m - 1 else m
  }

  function MountSpec(s: State, env: MountEnv): (State, bool) {
    if env.lowerDirFails then (s, false)
    else
      var s := s.(lowerMounts := Stack(s.lowerMounts, env.lower));
      if env.lower.Fails? || env.upperDirFails then (s, false)
      else
        var s := if s.upper.None? then s.(upper := Some(EMPTY_UPPER)) else s;
        if env.workDirFails then (s, false)
        else (s.(mounted := Stack(if s.mounted then 1 else 0, env.overlay) > 0), env.overlay.Works?)
  }

  /** The directory under the lower mount is deleted with all it holds, and if another mount is still
      there, it holds the collection. */
  function UnmountSpec(s: State, env: UnmountEnv): (State, bool) {
    if env.targetFails then (s, false)
    else
      var s := s.(mounted := false);
      if env.lowerFails then (s, false)
      else
        var n := if s.lowerMounts > 0 then s.lowerMounts - 1 else 0;
        (s.(lowerMounts := n, tree := if n > 0 then Dir(map[]) else s.tree, syncing := true), true)
  }

  /** The upper layer is deleted whether or not writing it back worked. */
  function SyncSpec(s: State, env: SyncEnv): State {
    s.(tree := env.tree, upper := env.left, syncing := false)
  }

  class OverlayVolume {
    const markers: Markers
    var lowerMounts: nat
    var mounted: bool
    var syncing: bool
    var upper: Option<Upper>
    ghost var tree: Tree

    ghost function Now(): State
      reads this
    {
      State(markers, tree, upper, lowerMounts, mounted, syncing)
    }

    constructor (markers: Markers, ghost tree: Tree, upper: Option<Upper>)
      ensures Now() == State(markers, tree, upper, 0, false, false)
    {
      this.markers, this.tree, this.upper, lowerMounts, mounted, syncing := markers, tree, upper, 0, false, false;
    }

    method MountLower(a: Attempt) returns (ok: bool)
      modifies this`lowerMounts
      ensures lowerMounts == Stack(old(lowerMounts), a) && ok == a.Works?
    {
      if a.Works? {
        lowerMounts := lowerMounts + 1;
        return true;
      }
      if a.leftover {
        lowerMounts := lowerMounts + 1;
      }
      if a.cleaned && lowerMounts > 0 {
        lowerMounts := lowerMounts - 1;
      }
      return false;
    }

    method MountOverlay(a: Attempt) returns (ok: bool)
      modifies this`mounted
      ensures mounted == (Stack(if old(mounted) then 1 else 0, a) > 0) && ok == a.Works?
    {
      ok := a.Works?;
      mounted := if ok then true
                 else if a.cleaned then mounted && a.leftover
                 else mounted || a.leftover;
    }

    method Mount(env: MountEnv) returns (ok: bool)
      modifies this
      ensures (Now(), ok) == MountSpec(old(Now()), env)
    {
      if env.lowerDirFails {
        return false;
      }
      ok := MountLower(env.lower);
      if !ok || env.upperDirFails {
        return false;
      }
      if upper.None? {
        upper := Some(EMPTY_UPPER);
      }
      if env.workDirFails {
        return false;
      }
      ok := MountOverlay(env.overlay);
    }

    method Unmount(env: UnmountEnv) returns (ok: bool)
      modifies this
      ensures (Now(), ok) == UnmountSpec(old(Now()), env)
    {
      if env.targetFails {
        return false;
      }
      mounted := false;
      if env.lowerFails {
        return false;
      }
      if lowerMounts > 0 {
        lowerMounts := lowerMounts - 1;
      }
      if lowerMounts > 0 {
        tree := Dir(map[]);
      }
      syncing := true;
      return true;
    }

    /** The background part of unmounting: write back, and delete the upper layer whatever came of it.
        Where no task failed, the volume shows what it did unless the write-back or the deletion lost
        some of it. */
    method SyncAndDelete(env: SyncEnv)
      modifies this
      ensures Now() == SyncSpec(old(Now()), env)
      ensures Good(old(Now())) && Possible(old(Now()), SyncEvent(env)) ==>
                && Good(Now())
                && (env.failed == {} ==> (Seen(Now()) == Seen(old(Now())) <==> !Loses(old(Now()), SyncEvent(env))))
                && (!Loses(old(Now()), SyncEvent(env)) ==>
                      forall q: Path | Clean(env.failed, q) :: Look(Seen(Now()), q) == Look(Seen(old(Now())), q))
    {
      ghost var before := Now();
      tree := env.tree;
      upper := env.left;
      syncing := false;
      if Good(before) && Possible(before, SyncEvent(env)) {
        SyncKeeps(before, env);
      }
    }
  }

  // ---------- what the user sees ----------

  /** What the volume shows when it is mounted. */
  function Seen(s: State): Option<Tree> {
    if s.upper.None? then Some(s.tree) else Merge(s.markers, s.upper.value, Some(s.tree))
  }

  ghost predicate IsUpperLayer(u: Upper) {
    Valid(u) && u.UpperDir? && !u.isOpaque
  }

  ghost predicate Good(s: State) {
    && s.tree.Dir? && (s.upper.Some? ==> IsUpperLayer(s.upper.value))
    && (s.mounted || s.syncing ==> s.upper.Some?) && !(s.mounted && s.syncing)
  }

  /** Some run of the write-back of u over the collection l has l' there, with these tasks failed, at
      its end or on the way. */
  ghost predicate SyncReaches(u: Upper, l: Tree, finished: bool, l': Tree, failed: set<Path>) {
    exists r0: Remote, es, w ::
      && Holds(r0, [], Some(l))
      && Run(Plan(u), Begin(Plan(u), r0), es, w) && (finished ==> w.manager.caller.WaitReturned?)
      && w.failed == failed && Holds(w.remote, [], Some(l'))
  }

  lemma {:induction false} EmptyShowsLower(m: Markers, l: Tree)
    requires l.Dir?
    ensures Merge(m, EMPTY_UPPER, Some(l)) == Some(l)
  {
  }

  lemma {:induction false} SameLook(t: Option<Tree>, t': Option<Tree>)
    requires t.Some? && forall q: Path :: Look(t, q) == Look(t', q)
    ensures t == t'
  {
    assert Look(t, []) == Look(t', []);
    LookDetermines(t.value, t'.value);
  }

  lemma {:induction false} ReachedIsDir(u: Upper, l: Tree, finished: bool, l': Tree, failed: set<Path>)
    requires IsUpperLayer(u) && l.Dir? && SyncReaches(u, l, finished, l', failed)
    ensures l'.Dir? && Clean(failed, [])
  {
    var r0: Remote, es, w :|
      && Holds(r0, [], Some(l))
      && Run(Plan(u), Begin(Plan(u), r0), es, w) && (finished ==> w.manager.caller.WaitReturned?)
      && w.failed == failed && Holds(w.remote, [], Some(l'));
    TreeIsWellFormed(r0, Some(l));
    RootStays(u, r0, es, w);
    var root: Path := [];
    assert [] + root == root;
    assert Get(w.remote, [] + root) == Look(Some(l'), root);
  }

  /** A finished write-back leaves the merge, at every path not at or below a failed one. */
  lemma {:induction false} SyncLeavesMerge(u: Upper, l: Tree, l': Tree, failed: set<Path>, q: Path)
    requires IsUpperLayer(u) && l.Dir? && SyncReaches(u, l, true, l', failed) && Clean(failed, q)
    ensures Look(Some(l'), q) == Look(Merge(Dropped, u, Some(l)), q)
  {
    var r0: Remote, es, w :|
      && Holds(r0, [], Some(l))
      && Run(Plan(u), Begin(Plan(u), r0), es, w) && w.manager.caller.WaitReturned?
      && w.failed == failed && Holds(w.remote, [], Some(l'));
    SyncIsMerge(u, l, r0, es, w);
    assert WithPlainRoot(u) == u && [] + q == q;
    assert Get(w.remote, [] + q) == Look(Some(l'), q);
  }

  /** On the way the upper layer shows over the collection what it showed at the start. */
  lemma {:induction false} SyncKeepsShowing(m: Markers, u: Upper, l: Tree, finished: bool, l': Tree, failed: set<Path>, q: Path)
    requires IsUpperLayer(u) && l.Dir? && SyncReaches(u, l, finished, l', failed) && Clean(failed, q)
    ensures Look(Merge(m, u, Some(l')), q) == Look(Merge(m, u, Some(l)), q)
  {
    var r0: Remote, es, w :|
      && Holds(r0, [], Some(l))
      && Run(Plan(u), Begin(Plan(u), r0), es, w) && (finished ==> w.manager.caller.WaitReturned?)
      && w.failed == failed && Holds(w.remote, [], Some(l'));
    MidwayShows(m, u, l, l', r0, es, w, q);
  }

  // ---------- events ----------

  /** A user's writes through the mount change the upper layer in any way. A restart of the driver stops
      a write-back wherever it is. */
  datatype Event =
    | MountEvent(mount: MountEnv)
    | WriteEvent(upper: Upper)
    | UnmountEvent(unmount: UnmountEnv)
    | SyncEvent(sync: SyncEnv)
    | RestartEvent(tree: Tree, failed: set<Path>)

  function Next(s: State, e: Event): State {
    match e
    case MountEvent(env) => MountSpec(s, env).0
    case WriteEvent(u) => s.(upper := Some(u))
    case UnmountEvent(env) => UnmountSpec(s, env).0
    case SyncEvent(env) => SyncSpec(s, env)
    case RestartEvent(t, _) => s.(tree := t, syncing := false)
  }

  /** What the write-back can have made of the collection: nothing if it has not begun. */
  ghost predicate Reached(s: State, finished: bool, t: Tree, failed: set<Path>) {
    || (!finished && t == s.tree && failed == {})
    || (s.upper.Some? && SyncReaches(s.upper.value, s.tree, finished, t, failed))
  }

  /** The driver mounts only where nothing is mounted, users write only where something is, and a
      volume is not mounted again before its write-back has ended. A deletion leaves nothing or any
      part of the upper layer. */
  ghost predicate Possible(s: State, e: Event) {
    match e
    case MountEvent(_) => !s.mounted && !s.syncing
    case WriteEvent(u) => s.mounted && IsUpperLayer(u)
    case UnmountEvent(_) => s.mounted
    case SyncEvent(env) =>
      && s.syncing && s.upper.Some? && Reached(s, env.finished, env.tree, env.failed)
      && (env.left.Some? ==> LeftOf(env.left.value, s.upper.value))
    case RestartEvent(t, failed) => Reached(s, false, t, failed) && (!s.syncing ==> t == s.tree && failed == {})
  }

  /** The unmount succeeds with another lower mount below the one it removes. */
  predicate Stacked(s: State, env: UnmountEnv) {
    !env.targetFails && !env.lowerFails && s.lowerMounts > 1
  }

  /** The events that lose something the user saw: an unmount that empties a collection that shows
      through; a write-back cut short after which the upper layer, or a part of it that still
      mattered, is deleted; and one that finished, where the deletion takes a marker file that
      changed something or leaves a part that hides what was written back. */
  predicate Loses(s: State, e: Event) {
    match e
    case MountEvent(_) => false
    case WriteEvent(_) => false
    case RestartEvent(_, _) => false
    case UnmountEvent(env) => Stacked(s, env) && s.upper.Some? && !HidesAll(s.markers, s.upper.value, Some(s.tree))
    case SyncEvent(env) =>
      s.upper.Some? &&
      match (env.finished, env.left)
      case (false, None) => !NoEffect(s.markers, s.upper.value, Some(env.tree))
      case (false, Some(part)) => !SameOver(s.markers, part, s.upper.value, Some(env.tree))
      case (true, None) => !MarkersIdle(s.markers, s.upper.value, Some(s.tree))
      case (true, Some(part)) => !HidesNothing(s.markers, part, s.upper.value, Some(s.tree))
  }

  /** The paths whose tasks failed during the event. */
  function FailedAt(e: Event): set<Path> {
    match e
    case SyncEvent(env) => env.failed
    case RestartEvent(_, failed) => failed
    case _ => {}
  }

  lemma {:induction false} MountKeeps(s: State, env: MountEnv)
    requires Good(s) && Possible(s, MountEvent(env))
    ensures Good(MountSpec(s, env).0) && Seen(MountSpec(s, env).0) == Seen(s)
  {
    EmptyShowsLower(s.markers, s.tree);
  }

  lemma {:induction false} EmptyBelow(m: Markers, u: Upper)
    requires u.UpperDir?
    ensures Merge(m, u, Some(Dir(map[]))) == Merge(m, u, None)
  {
  }

  lemma {:induction false} UnmountKeepsIff(s: State, env: UnmountEnv)
    requires Good(s) && Possible(s, UnmountEvent(env))
    ensures Good(UnmountSpec(s, env).0)
    ensures Seen(UnmountSpec(s, env).0) == Seen(s) <==> !Loses(s, UnmountEvent(env))
  {
    EmptyBelow(s.markers, s.upper.value);
    HidesAllIff(s.markers, s.upper.value, Some(s.tree));
  }

  /** What is left of the upper layer over two collections that agree at q shows the same there. */
  lemma {:induction false} LeftAgrees(m: Markers, part: Upper, l: Option<Tree>, l': Option<Tree>, q: Path)
    requires Valid(part) && Look(l, q) == Look(l', q)
    ensures Look(Merge(m, part, l), q) == Look(Merge(m, part, l'), q)
  {
    MergeIsView(m, part, l, q);
    MergeIsView(m, part, l', q);
    OneLayerDecides(m, Some(part), l, l', q);
    OneLayerDecides(m, Some(part), l', l, q);
  }

  /** After a finished write-back: at q the volume shows what the merge and what is left show. */
  lemma {:induction false} FinishedShows(s: State, env: SyncEnv, q: Path)
    requires Good(s) && Possible(s, SyncEvent(env)) && env.finished && Clean(env.failed, q)
    ensures var written := Merge(Dropped, s.upper.value, Some(s.tree));
            Look(Seen(SyncSpec(s, env)), q) ==
            Look(if env.left.None? then written else Merge(s.markers, env.left.value, written), q)
  {
    var u := s.upper.value;
    SyncLeavesMerge(u, s.tree, env.tree, env.failed, q);
    if env.left.Some? {
      LeftIsValid(env.left.value, u);
      LeftAgrees(s.markers, env.left.value, Some(env.tree), Merge(Dropped, u, Some(s.tree)), q);
    }
  }

  /** When nothing is lost, the two sides of that are what the volume showed. */
  lemma {:induction false} FinishedIff(s: State, env: SyncEnv)
    requires Good(s) && Possible(s, SyncEvent(env)) && env.finished
    ensures var written := Merge(Dropped, s.upper.value, Some(s.tree));
            (if env.left.None? then written else Merge(s.markers, env.left.value, written)) == Seen(s)
            <==> !Loses(s, SyncEvent(env))
  {
    var u, l := s.upper.value, Some(s.tree);
    if env.left.None? {
      MarkersIdleIff(s.markers, u, l);
    } else {
      HidesNothingIff(s.markers, env.left.value, u, l);
    }
  }

  lemma {:induction false} StillShows(s: State, finished: bool, t: Tree, failed: set<Path>, q: Path)
    requires Good(s) && s.upper.Some? && Reached(s, finished, t, failed) && Clean(failed, q)
    ensures Look(Merge(s.markers, s.upper.value, Some(t)), q) == Look(Seen(s), q)
  {
    if SyncReaches(s.upper.value, s.tree, finished, t, failed) {
      SyncKeepsShowing(s.markers, s.upper.value, s.tree, finished, t, failed, q);
    }
  }

  /** Cut short: the volume would still show what it showed, were it not for the deletion. */
  lemma {:induction false} CutShortIff(s: State, env: SyncEnv)
    requires Good(s) && Possible(s, SyncEvent(env)) && !env.finished
    ensures Seen(SyncSpec(s, env)) == Merge(s.markers, s.upper.value, Some(env.tree)) <==> !Loses(s, SyncEvent(env))
  {
    if env.left.None? {
      NoEffectIff(s.markers, s.upper.value, Some(env.tree));
    } else {
      SameOverIff(s.markers, env.left.value, s.upper.value, Some(env.tree));
    }
  }

  lemma {:induction false} ReachedIsGood(s: State, finished: bool, t: Tree, failed: set<Path>)
    requires Good(s) && Reached(s, finished, t, failed)
    ensures t.Dir?
  {
    if s.upper.Some? && SyncReaches(s.upper.value, s.tree, finished, t, failed) {
      ReachedIsDir(s.upper.value, s.tree, finished, t, failed);
    }
  }

  /** What the volume shows after the write-back where no task failed. */
  function SyncShows(s: State, env: SyncEnv): Option<Tree>
    requires s.upper.Some?
  {
    if !env.finished then Seen(SyncSpec(s, env))
    else
      var written := Merge(Dropped, s.upper.value, Some(s.tree));
      if env.left.None? then written else Merge(s.markers, env.left.value, written)
  }

  /** Ending the write-back: a losing way to end it is what makes the volume show something else, apart
      from the failed paths. */
  lemma {:induction false} SyncKeeps(s: State, env: SyncEnv)
    requires Good(s) && Possible(s, SyncEvent(env))
    ensures Good(SyncSpec(s, env))
    ensures !Loses(s, SyncEvent(env)) ==>
              forall q: Path | Clean(env.failed, q) :: Look(Seen(SyncSpec(s, env)), q) == Look(Seen(s), q)
    ensures env.failed == {} ==> (Seen(SyncSpec(s, env)) == Seen(s) <==> !Loses(s, SyncEvent(env)))
  {
    var s' := SyncSpec(s, env);
    ReachedIsGood(s, env.finished, env.tree, env.failed);
    if env.left.Some? {
      LeftIsValid(env.left.value, s.upper.value);
    }
    if env.finished {
      FinishedIff(s, env);
    } else {
      CutShortIff(s, env);
    }
    var shown := SyncShows(s, env);
    forall q: Path | Clean(env.failed, q)
      ensures Look(Seen(s'), q) == Look(shown, q)
      ensures !env.finished ==> Look(Merge(s.markers, s.upper.value, Some(env.tree)), q) == Look(Seen(s), q)
    {
      if env.finished {
        FinishedShows(s, env, q);
      } else {
        StillShows(s, env.finished, env.tree, env.failed, q);
      }
    }
    if env.failed == {} {
      SameLook(Seen(s'), shown);
      if !env.finished {
        SameLook(Merge(s.markers, s.upper.value, Some(env.tree)), Seen(s));
      }
    }
  }

  // ---------- runs ----------

  ghost predicate Course(s: State, es: seq<Event>, s': State)
    decreases |es|
  {
    if es == [] then s == s' else Possible(s, es[0]) && Course(Next(s, es[0]), es[1..], s')
  }

  predicate NothingLost(s: State, es: seq<Event>)
    decreases |es|
  {
    es == [] || (!Loses(s, es[0]) && NothingLost(Next(s, es[0]), es[1..]))
  }

  /** What the last write left to be seen, or what was seen at the start if there was none. */
  function Written(s: State, es: seq<Event>, seen: Option<Tree>): Option<Tree>
    decreases |es|
  {
    if es == [] then seen
    else
      var s' := Next(s, es[0]);
      Written(s', es[1..], if es[0].WriteEvent? then Seen(s') else seen)
  }

  /** At every point of the run the volume shows what the last write left. */
  predicate AlwaysShows(s: State, es: seq<Event>, seen: Option<Tree>)
    decreases |es|
  {
    && Seen(s) == seen
    && (es == [] ||
        var s' := Next(s, es[0]);
        AlwaysShows(s', es[1..], if es[0].WriteEvent? then Seen(s') else seen))
  }

  lemma {:induction false} RestartKeeps(s: State, t: Tree, failed: set<Path>, q: Path)
    requires Good(s) && Possible(s, RestartEvent(t, failed)) && Clean(failed, q)
    ensures Good(Next(s, RestartEvent(t, failed)))
    ensures Look(Seen(Next(s, RestartEvent(t, failed))), q) == Look(Seen(s), q)
  {
    ReachedIsGood(s, false, t, failed);
    if s.upper.Some? {
      StillShows(s, false, t, failed, q);
    }
  }

  lemma {:induction false} StepKeepsIff(s: State, e: Event)
    requires Good(s) && Possible(s, e)
    ensures Good(Next(s, e))
    ensures !e.WriteEvent? && FailedAt(e) == {} ==> (Seen(Next(s, e)) == Seen(s) <==> !Loses(s, e))
    ensures !e.WriteEvent? && !Loses(s, e) ==>
              forall q: Path | Clean(FailedAt(e), q) :: Look(Seen(Next(s, e)), q) == Look(Seen(s), q)
  {
    match e {
      case MountEvent(env) => MountKeeps(s, env);
      case WriteEvent(_) =>
      case UnmountEvent(env) => UnmountKeepsIff(s, env);
      case SyncEvent(env) => SyncKeeps(s, env);
      case RestartEvent(t, failed) =>
        ReachedIsGood(s, false, t, failed);
        forall q: Path | Clean(failed, q)
          ensures Look(Seen(Next(s, e)), q) == Look(Seen(s), q)
        {
          RestartKeeps(s, t, failed, q);
        }
        if failed == {} {
          SameLook(Seen(s), Seen(Next(s, e)));
        }
    }
  }

  /** Through any number of mounts, writes, unmounts, write-backs and restarts, each failing at any
      point but with no task of a write-back failing: the volume always shows what the last write left
      exactly if none of the losing events happens. */
  lemma {:induction false} SeenSurvivesIff(s: State, es: seq<Event>, s': State)
    requires Good(s) && Course(s, es, s') && forall i | 0 <= i < |es| :: FailedAt(es[i]) == {}
    ensures Good(s') && (AlwaysShows(s, es, Seen(s)) <==> NothingLost(s, es))
    decreases |es|
  {
    if es != [] {
      var t := Next(s, es[0]);
      StepKeepsIff(s, es[0]);
      SeenSurvivesIff(t, es[1..], s');
      if Loses(s, es[0]) {
        assert !AlwaysShows(t, es[1..], Seen(s));
      }
    }
  }

  /** With tasks failing too: in a run without a losing event the volume shows at the end, at every path
      that is not at or below a failed one, what the last write left there. */
  lemma {:induction false} WrittenSurvives(s: State, es: seq<Event>, s': State, q: Path)
    requires Good(s) && Course(s, es, s') && NothingLost(s, es)
    requires forall i | 0 <= i < |es| :: Clean(FailedAt(es[i]), q)
    ensures Good(s') && Look(Seen(s'), q) == Look(Written(s, es, Seen(s)), q)
  {
    WrittenSurvivesFrom(s, es, s', Seen(s), q);
  }

  lemma {:induction false} WrittenSurvivesFrom(s: State, es: seq<Event>, s': State, seen: Option<Tree>, q: Path)
    requires Good(s) && Course(s, es, s') && NothingLost(s, es) && Look(Seen(s), q) == Look(seen, q)
    requires forall i | 0 <= i < |es| :: Clean(FailedAt(es[i]), q)
    ensures Good(s') && Look(Seen(s'), q) == Look(Written(s, es, seen), q)
    decreases |es|
  {
    if es != [] {
      var t := Next(s, es[0]);
      StepKeepsIff(s, es[0]);
      assert Clean(FailedAt(es[0]), q);
      WrittenSurvivesFrom(t, es[1..], s', if es[0].WriteEvent? then Seen(t) else seen, q);
    }
  }

  // ---------- the way of a write into the collection ----------

  predicate EndsWell(env: SyncEnv) {
    env.finished && env.failed == {} && env.left == None
  }

  /** Every unmounted volume can be written back to the end without a failure. */
  lemma {:induction false} SyncCanEnd(s: State) returns (env: SyncEnv)
    requires Good(s) && s.syncing
    ensures EndsWell(env) && Possible(s, SyncEvent(env))
  {
    var u, l, r0 := s.upper.value, s.tree, TableOf(s.tree);
    TableHolds(l);
    SyncCanFinish(u, l, r0);
    var es, w :|
      && Run(Plan(u), Begin(Plan(u), r0), es, w) && w.manager.caller.WaitReturned? && w.failed == {}
      && Holds(w.remote, [], Merge(Dropped, WithPlainRoot(u), Some(l)));
    var t := Merge(Dropped, u, Some(l)).value;
    assert WithPlainRoot(u) == u && Holds(w.remote, [], Some(t));
    assert SyncReaches(u, l, true, t, {});
    env := SyncEnv(true, t, {}, None);
  }

  /** An unmount that succeeds leaves the volume unmounted with its upper layer as it was, and begins a
      write-back, which can be brought to its end. Until it ends or the driver restarts, nothing else
      happens to the volume. */
  lemma {:induction false} UnmountBeginsSync(s: State, env: UnmountEnv)
    requires Good(s) && s.mounted && UnmountSpec(s, env).1
    ensures var t := UnmountSpec(s, env).0;
            && !t.mounted && t.upper == s.upper
            && (exists sync: SyncEnv :: EndsWell(sync) && Possible(t, SyncEvent(sync)))
            && (forall e: Event :: Possible(t, e) ==> e.SyncEvent? || e.RestartEvent?)
  {
    var t := UnmountSpec(s, env).0;
    UnmountKeepsIff(s, env);
    var sync := SyncCanEnd(t);
  }

  /** A write-back that finishes without a failure, and whose upper layer is deleted, makes the
      collection the merge of that layer, markers dropped, over what it was. */
  lemma {:induction false} SyncMerges(s: State, env: SyncEnv)
    requires Good(s) && Possible(s, SyncEvent(env)) && EndsWell(env)
    ensures var t := SyncSpec(s, env);
            Some(t.tree) == Merge(Dropped, s.upper.value, Some(s.tree)) && t.upper == None && !t.syncing
  {
    forall q: Path
      ensures Look(Some(env.tree), q) == Look(Merge(Dropped, s.upper.value, Some(s.tree)), q)
    {
      SyncLeavesMerge(s.upper.value, s.tree, env.tree, {}, q);
    }
    SameLook(Some(env.tree), Merge(Dropped, s.upper.value, Some(s.tree)));
  }

  /** The collection that the write-back of a volume starts from: emptied if the lower layer had been
      left mounted before. */
  function Below(s: State): Tree {
    if s.lowerMounts > 0 then Dir(map[]) else s.tree
  }

  function WriteCycle(mount: MountEnv, u: Upper, unmount: UnmountEnv, sync: SyncEnv): seq<Event> {
    [MountEvent(mount), WriteEvent(u), UnmountEvent(unmount), SyncEvent(sync)]
  }

  predicate NoStepFails(mount: MountEnv, unmount: UnmountEnv) {
    && !mount.lowerDirFails && mount.lower.Works? && !mount.upperDirFails && !mount.workDirFails && mount.overlay.Works?
    && !unmount.targetFails && !unmount.lowerFails
  }

  /** Mount, write, unmount: then the write-back can finish, and whenever it does without a failure and
      the upper layer is deleted, the collection is the merge of what was written over what was there,
      and nothing else of the volume has changed. */
  lemma {:induction false} WriteReachesCollection(s: State, mount: MountEnv, u: Upper, unmount: UnmountEnv)
    requires Good(s) && !s.mounted && !s.syncing && IsUpperLayer(u) && NoStepFails(mount, unmount)
    ensures MountSpec(s, mount).1 && UnmountSpec(MountSpec(s, mount).0.(upper := Some(u)), unmount).1
    ensures exists sync: SyncEnv, s': State :: EndsWell(sync) && Course(s, WriteCycle(mount, u, unmount, sync), s')
    ensures forall sync: SyncEnv, s': State | EndsWell(sync) && Course(s, WriteCycle(mount, u, unmount, sync), s') ::
              Some(s'.tree) == Merge(Dropped, u, Some(Below(s))) && s' == s.(tree := s'.tree, upper := None)
  {
    var b := MountSpec(s, mount).0.(upper := Some(u));
    var c := UnmountSpec(b, unmount).0;
    MountKeeps(s, mount);
    assert c == s.(upper := Some(u), syncing := true, tree := Below(s));
    UnmountKeepsIff(b, unmount);
    var env := SyncCanEnd(c);
    Chain(s, MountEvent(mount), WriteEvent(u), UnmountEvent(unmount), SyncEvent(env), SyncSpec(c, env));
    assert Course(s, WriteCycle(mount, u, unmount, env), SyncSpec(c, env));
    forall sync: SyncEnv, s': State | EndsWell(sync) && Course(s, WriteCycle(mount, u, unmount, sync), s')
      ensures Some(s'.tree) == Merge(Dropped, u, Some(Below(s))) && s' == s.(tree := s'.tree, upper := None)
    {
      Chain(s, MountEvent(mount), WriteEvent(u), UnmountEvent(unmount), SyncEvent(sync), s');
      SyncMerges(c, sync);
    }
  }

  lemma {:induction false} Chain(s: State, e1: Event, e2: Event, e3: Event, e4: Event, s': State)
    ensures var a := Next(s, e1); var b := Next(a, e2); var c := Next(b, e3);
            Course(s, [e1, e2, e3, e4], s') <==>
              Possible(s, e1) && Possible(a, e2) && Possible(b, e3) && Possible(c, e4) && s' == Next(c, e4)
  {
    var a := Next(s, e1);
    var b := Next(a, e2);
    var c := Next(b, e3);
    assert [e1, e2, e3, e4][1..] == [e2, e3, e4] && [e2, e3, e4][1..] == [e3, e4] && [e3, e4][1..] == [e4] && [e4][1..] == [];
    assert Course(Next(c, e4), [], s') <==> s' == Next(c, e4);
    assert Course(c, [e4], s') <==> Possible(c, e4) && s' == Next(c, e4);
    assert Course(b, [e3, e4], s') <==> Possible(b, e3) && Course(c, [e4], s');
    assert Course(a, [e2, e3, e4], s') <==> Possible(a, e2) && Course(b, [e3, e4], s');
  }

  // ---------- where it fails ----------

  /** Unmounting empties the collection exactly when the lower layer is mounted more than once. */
  lemma {:induction false} UnmountEmptiesIff(s: State, env: UnmountEnv)
    requires s.tree != Dir(map[])
    ensures UnmountSpec(s, env).0.tree != s.tree <==> Stacked(s, env)
  {
  }

  /** Along the run only write-backs change the collection, whole or stopped. */
  predicate CollectionKept(s: State, es: seq<Event>)
    decreases |es|
  {
    es == [] || ((es[0].SyncEvent? || es[0].RestartEvent? || Next(s, es[0]).tree == s.tree) && CollectionKept(Next(s, es[0]), es[1..]))
  }

  /** No unmount along the run succeeds while the lower layer is mounted more than once, unless the
      collection is empty. */
  predicate NeverStacked(s: State, es: seq<Event>)
    decreases |es|
  {
    es == [] || (&& !(es[0].UnmountEvent? && Stacked(s, es[0].unmount) && s.tree != Dir(map[]))
                 && NeverStacked(Next(s, es[0]), es[1..]))
  }

  /** In every run whatever, the driver itself leaves the collection alone exactly if no unmount
      succeeds on a stacked lower layer. */
  lemma {:induction false} CollectionKeptIff(s: State, es: seq<Event>)
    ensures CollectionKept(s, es) <==> NeverStacked(s, es)
    decreases |es|
  {
    if es != [] {
      CollectionKeptIff(Next(s, es[0]), es[1..]);
      if es[0].UnmountEvent? && s.tree != Dir(map[]) {
        UnmountEmptiesIff(s, es[0].unmount);
      }
    }
  }

  /** The next mount and unmount of a volume empty the collection exactly when the lower layer was
      left mounted before. */
  lemma {:induction false} LeftoverLowerEmpties(s: State, mount: MountEnv, unmount: UnmountEnv)
    requires MountSpec(s, mount).1 && UnmountSpec(MountSpec(s, mount).0, unmount).1 && s.tree != Dir(map[])
    ensures UnmountSpec(MountSpec(s, mount).0, unmount).0.tree == Dir(map[]) <==> s.lowerMounts > 0
  {
  }

  /** A lower layer mounted once is left behind by an unmount that fails between the two layers, and
      by a mount that fails there or whose clean-up fails. */
  lemma {:induction false} LowerLeftBehind(s: State, mount: MountEnv, unmount: UnmountEnv)
    ensures s.mounted && s.lowerMounts == 1 ==>
              var t := UnmountSpec(s, unmount).0;
              !t.mounted && t.lowerMounts > 0 <==> !unmount.targetFails && unmount.lowerFails
    ensures !s.mounted && s.lowerMounts == 0 ==>
              var t := MountSpec(s, mount).0;
              !t.mounted && t.lowerMounts > 0 <==>
                && !mount.lowerDirFails
                && (if mount.lower.Fails? then mount.lower.leftover && !mount.lower.cleaned
                    else mount.upperDirFails || mount.workDirFails
                         || (mount.overlay.Fails? && (mount.overlay.leftover ==> mount.overlay.cleaned)))
  {
  }

  /** A write-back that is cut short, or fails before it starts, and after which the upper layer is
      deleted, keeps what the user saw exactly when the upper layer had no effect on what the
      collection then was. */
  lemma {:induction false} CutShortLosesIff(s: State, reached: Tree)
    requires Good(s) && s.syncing && Reached(s, false, reached, {})
    ensures Seen(SyncSpec(s, SyncEnv(false, reached, {}, None))) == Seen(s) <==> NoEffect(s.markers, s.upper.value, Some(reached))
  {
    SyncKeeps(s, SyncEnv(false, reached, {}, None));
  }

  /** A finished write-back after which the upper layer is deleted keeps what the user saw exactly when
      the markers in it, which it drops, changed nothing. */
  lemma {:induction false} DroppedMarkersLoseIff(s: State, written: Tree)
    requires Good(s) && s.syncing && Reached(s, true, written, {})
    ensures Seen(SyncSpec(s, SyncEnv(true, written, {}, None))) == Seen(s) <==> MarkersIdle(s.markers, s.upper.value, Some(s.tree))
  {
    SyncKeeps(s, SyncEnv(true, written, {}, None));
  }

  /** For example under the kernel's driver, which shows it, a new file that has a marker's name. */
  lemma {:induction false} DroppedMarkerExample(x: Data)
    ensures var u := UpperDir(false, [(".wh.a.opq", UpperFile(x))]);
            IsUpperLayer(u) && !MarkersIdle(Shown, u, Some(Dir(map[])))
  {
    var u := UpperDir(false, [(".wh.a.opq", UpperFile(x))]);
    assert IsMarkerName(u.entries[0].0);
    assert Counts(Shown, u.entries, 0) && !NoEffect(Shown, UpperFile(x), None);
  }

  /** A part of the upper layer left by its deletion keeps what the user saw exactly when every opaque
      directory in it, and every directory below one, has lost only whiteouts and markers that are not
      shown, and what else is lost are entries written back in full and markers that changed nothing. */
  lemma {:induction false} PartialDeleteHidesIff(s: State, written: Tree, part: Upper)
    requires Good(s) && s.syncing && Reached(s, true, written, {}) && LeftOf(part, s.upper.value)
    ensures Seen(SyncSpec(s, SyncEnv(true, written, {}, Some(part)))) == Seen(s)
        <==> HidesNothing(s.markers, part, s.upper.value, Some(s.tree))
  {
    SyncKeeps(s, SyncEnv(true, written, {}, Some(part)));
  }

  /** For example an opaque directory whose only entry is deleted already. */
  lemma {:induction false} PartialDeleteExample(m: Markers, x: Data, l: Tree)
    ensures var full := UpperDir(false, [("d", UpperDir(true, [("f", UpperFile(x))]))]);
            var part := UpperDir(false, [("d", UpperDir(true, []))]);
            Valid(full) && LeftOf(part, full) && !HidesNothing(m, part, full, Some(l))
  {
    var inner, left := UpperDir(true, [("f", UpperFile(x))]), UpperDir(true, []);
    var full, part := UpperDir(false, [("d", inner)]), UpperDir(false, [("d", left)]);
    assert LeftOf(left, inner) && full.entries[0].0 == part.entries[0].0;
    assert Counts(m, inner.entries, 0) && Find(m, left.entries, "f") == None;
    assert !NoEffect(m, UpperFile(x), None);
    assert !SameOver(m, left, inner, None);
    assert Counts(m, full.entries, 0) && Find(m, part.entries, "d") == Some(left);
  }
}
