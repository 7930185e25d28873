/** The upper layer of an overlay mount, and what a user of the mount sees: upper merged over lower. */
module Overlay {
  import opened Trees

  /** An upper layer entry. A whiteout is a character device; a directory may carry the
      trusted.overlay.opaque attribute. Directory entries come in the order ReadDir lists them. */
  datatype Upper =
    | UpperFile(data: Data)
    | Whiteout
    | UpperDir(isOpaque: bool, entries: seq<(Name, Upper)>)

  /** The marker files fuse-overlayfs leaves beside the attribute. The two fixes may overlap. */
  predicate IsMarkerName(n: Name) {
    ".wh." <= n && |n| >= 4 && n[|n| - 4..] == ".opq"
  }

  /** What becomes of marker files: a kernel overlay mount shows them like any other file, while the
      write-back drops them, and a fuse-overlayfs mount never shows them. */
  datatype Markers = Shown | Dropped

  /** Directories are never taken for markers. */
  predicate IsIgnored(m: Markers, n: Name, u: Upper) {
    m.Dropped? && !u.UpperDir? && IsMarkerName(n)
  }

  /** A directory listing names each entry once. */
  predicate DistinctNames(es: seq<(Name, Upper)>) {
    forall i, j | 0 <= i < j < |es| :: es[i].0 != es[j].0
  }

  predicate Valid(u: Upper)
    decreases u
  {
    u.UpperDir? ==>
      && DistinctNames(u.entries)
      && forall i | 0 <= i < |u.entries| :: Valid(u.entries[i].1)
  }

  function Find(m: Markers, es: seq<(Name, Upper)>, n: Name): Option<Upper> {
    if es == [] then None
    else if es[0].0 == n && !IsIgnored(m, es[0].0, es[0].1) then Some(es[0].1)
    else Find(m, es[1..], n)
  }

  function Store(m: map<Name, Tree>, n: Name, t: Option<Tree>): map<Name, Tree> {
    match t
    case Some(v) => m[n := v]
    case None => m - {n}
  }

  /** The tree a user of an overlay mount sees, and with markers dropped the one a write-back makes. */
  function Merge(m: Markers, u: Upper, l: Option<Tree>): Option<Tree>
    decreases u, 1
  {
    match u
    case Whiteout => None
    case UpperFile(d) => Some(File(d))
    case UpperDir(o, es) =>
      var base := if o || l.None? || l.value.File? then map[] else l.value.entries;
      Some(Dir(MergeEntries(m, u, es, base)))
  }

  function MergeEntries(m: Markers, u: Upper, es: seq<(Name, Upper)>, base: map<Name, Tree>): map<Name, Tree>
    requires forall e | e in es :: e.1 < u
    decreases u, 0, |es|
  {
    if es == [] then base
    else
      var (n, v) := es[0];
      assert es[0] in es;
      MergeEntries(m, u, es[1..], if IsIgnored(m, n, v) then base else Store(base, n, Merge(m, v, Get(base, n))))
  }

  /** The same view one path at a time, the way the overlay documentation states it: the upper
      entry decides, and only a directory that is not opaque lets the lower layer through. */
  function View(m: Markers, u: Option<Upper>, l: Option<Tree>, q: Path): Option<Node>
    decreases |q|
  {
    match u
    case None => Look(l, q)
    case Some(Whiteout) => None
    case Some(UpperFile(d)) => if q == [] then Some(FileNode(d)) else None
    case Some(UpperDir(o, es)) =>
      if q == [] then Some(DirNode)
      else View(m, Find(m, es, q[0]), if o then None else Child(l, q[0]), q[1..])
  }

  /** q is not in the upper layer and nothing in the upper layer hides it. */
  predicate ShowsLower(m: Markers, u: Option<Upper>, q: Path)
    decreases |q|
  {
    match u
    case None => true
    case Some(UpperDir(o, es)) => q != [] && !o && ShowsLower(m, Find(m, es, q[0]), q[1..])
    case Some(_) => false
  }

  // ---------- lemmas ----------

  lemma {:induction false} FindIs(m: Markers, es: seq<(Name, Upper)>, n: Name)
    ensures Find(m, es, n).Some? ==> exists e :: e in es && e.0 == n && e.1 == Find(m, es, n).value && !IsIgnored(m, e.0, e.1)
    ensures Find(m, es, n).None? ==> forall e | e in es && e.0 == n :: IsIgnored(m, e.0, e.1)
  {
    if es == [] {
    } else if es[0].0 == n && !IsIgnored(m, es[0].0, es[0].1) {
      assert es[0] in es;
    } else {
      FindIs(m, es[1..], n);
      assert forall e | e in es :: e == es[0] || e in es[1..];
    }
  }

  lemma {:induction false} FoundIsValid(m: Markers, u: Upper, n: Name)
    requires u.UpperDir? && Valid(u)
    ensures Find(m, u.entries, n).Some? ==> Valid(Find(m, u.entries, n).value)
  {
    FindIs(m, u.entries, n);
  }

  lemma {:induction false} NamedOnce(m: Markers, es: seq<(Name, Upper)>)
    requires es != [] && DistinctNames(es)
    ensures Find(m, es[1..], es[0].0).None? && DistinctNames(es[1..])
  {
    assert forall i | 0 <= i < |es[1..]| :: es[1..][i] == es[i + 1];
    FindIs(m, es[1..], es[0].0);
  }

  lemma {:induction false} MergeEntriesAt(m: Markers, u: Upper, es: seq<(Name, Upper)>, base: map<Name, Tree>, n: Name)
    requires forall e | e in es :: e.1 < u
    requires DistinctNames(es)
    ensures Get(MergeEntries(m, u, es, base), n) ==
            match Find(m, es, n) case Some(v) => Merge(m, v, Get(base, n)) case None => Get(base, n)
    decreases |es|
  {
    if es != [] {
      var (k, v) := es[0];
      assert es[0] in es;
      NamedOnce(m, es);
      var base' := if IsIgnored(m, k, v) then base else Store(base, k, Merge(m, v, Get(base, k)));
      MergeEntriesAt(m, u, es[1..], base', n);
    }
  }

  /** The merge of a directory, one entry at a time. */
  lemma {:induction false} ChildOfMerge(m: Markers, u: Upper, l: Option<Tree>, n: Name)
    requires u.UpperDir? && DistinctNames(u.entries)
    ensures var below := if u.isOpaque then None else Child(l, n);
            Child(Merge(m, u, l), n) ==
            match Find(m, u.entries, n) case Some(v) => Merge(m, v, below) case None => below
  {
    var base := if u.isOpaque || l.None? || l.value.File? then map[] else l.value.entries;
    MergeEntriesAt(m, u, u.entries, base, n);
  }

  /** The merged tree is the pathwise view. */
  lemma {:induction false} MergeIsView(m: Markers, u: Upper, l: Option<Tree>, q: Path)
    requires Valid(u)
    ensures Look(Merge(m, u, l), q) == View(m, Some(u), l, q)
    decreases |q|
  {
    if u.UpperDir? && q != [] {
      var n, below := q[0], if u.isOpaque then None else Child(l, q[0]);
      ChildOfMerge(m, u, l, n);
      FoundIsValid(m, u, n);
      match Find(m, u.entries, n) {
        case Some(v) => MergeIsView(m, v, below, q[1..]);
        case None =>
      }
    }
  }

  lemma {:induction false} ViewOfMerge(m: Markers, u: Upper, l: Option<Tree>, q: Path)
    requires Valid(u)
    ensures View(m, Some(u), Merge(m, u, l), q) == View(m, Some(u), l, q)
    decreases |q|
  {
    if u.UpperDir? && q != [] && !u.isOpaque {
      var n := q[0];
      ChildOfMerge(m, u, l, n);
      FoundIsValid(m, u, n);
      match Find(m, u.entries, n) {
        case Some(v) => ViewOfMerge(m, v, Child(l, n), q[1..]);
        case None =>
      }
    }
  }

  /** Merging the same upper layer again changes nothing. */
  lemma {:induction false} MergeIdempotent(m: Markers, u: Upper, l: Option<Tree>)
    requires Valid(u)
    ensures Merge(m, u, Merge(m, u, l)) == Merge(m, u, l)
  {
    var once, twice := Merge(m, u, l), Merge(m, u, Merge(m, u, l));
    if once.Some? {
      forall q: Path
        ensures Look(once, q) == Look(twice, q)
      {
        MergeIsView(m, u, l, q);
        MergeIsView(m, u, once, q);
        ViewOfMerge(m, u, l, q);
      }
      LookDetermines(once.value, twice.value);
    }
  }

  /** Each path is decided by one layer alone: by the lower one where it shows, and otherwise
      by the upper one, whatever the lower layer holds. */
  lemma {:induction false} OneLayerDecides(m: Markers, u: Option<Upper>, l: Option<Tree>, l': Option<Tree>, q: Path)
    ensures ShowsLower(m, u, q) ==> View(m, u, l, q) == Look(l, q)
    ensures !ShowsLower(m, u, q) ==> View(m, u, l, q) == View(m, u, l', q)
    decreases |q|
  {
    if u.Some? && u.value.UpperDir? && q != [] && !u.value.isOpaque {
      OneLayerDecides(m, Find(m, u.value.entries, q[0]), Child(l, q[0]), Child(l', q[0]), q[1..]);
    }
  }
}
