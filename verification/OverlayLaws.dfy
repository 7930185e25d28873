/** The overlay rules path by path, for an entry of the upper layer wherever it stands, and which names
    are markers, said without the functions they judge. */
module OverlayLaws {
  import opened Overlay
  import opened OverlayChange
  import opened Trees

  /** The name begins with ".wh." and ends with ".opq"; the two may overlap. */
  ghost predicate HasMarkerName(n: Name) {
    exists a: string, b: string :: n == ".wh." + a && n == b + ".opq"
  }

  lemma {:induction false} MarkerNameIff(n: Name)
    ensures IsMarkerName(n) <==> HasMarkerName(n)
  {
    if IsMarkerName(n) {
      assert n == ".wh." + n[4..] && n == n[..|n| - 4] + ".opq";
    }
    if HasMarkerName(n) {
      var a: string, b: string :| n == ".wh." + a && n == b + ".opq";
      assert n[|n| - 4..] == ".opq";
    }
  }

  /** The upper layer has v at path p. */
  predicate At(u: Upper, p: Path, v: Upper)
    decreases |p|
  {
    if p == [] then u == v
    else u.UpperDir? && exists i | 0 <= i < |u.entries| :: u.entries[i].0 == p[0] && At(u.entries[i].1, p[1..], v)
  }

  /** A directory of the upper layer strictly above p is opaque. */
  predicate OpaqueAbove(u: Upper, p: Path)
    decreases |p|
  {
    p != [] && u.UpperDir?
    && (u.isOpaque || exists i | 0 <= i < |u.entries| :: u.entries[i].0 == p[0] && OpaqueAbove(u.entries[i].1, p[1..]))
  }

  /** What an entry itself puts at its path. */
  function Own(v: Upper): Option<Node> {
    match v
    case Whiteout => None
    case UpperFile(d) => Some(FileNode(d))
    case UpperDir(_, _) => Some(DirNode)
  }

  /** The part of l at p. */
  function Part(l: Option<Tree>, p: Path): Option<Tree>
    decreases |p|
  {
    if p == [] then l else Part(Child(l, p[0]), p[1..])
  }

  lemma {:induction false} LookInPart(l: Option<Tree>, p: Path, q: Path)
    ensures Look(Part(l, p), q) == Look(l, p + q)
    decreases |p|
  {
    if p == [] {
      assert p + q == q;
    } else {
      assert (p + q)[0] == p[0] && (p + q)[1..] == p[1..] + q;
      LookInPart(Child(l, p[0]), p[1..], q);
    }
  }

  lemma {:induction false} NothingInNothing(p: Path)
    ensures Part(None, p) == None
    decreases |p|
  {
    if p != [] {
      NothingInNothing(p[1..]);
    }
  }

  /** Below a directory of the upper layer the view is that directory over the part of the lower layer
      there, or over nothing if a directory above hides it. */
  lemma {:induction false} Descend(m: Markers, u: Upper, l: Option<Tree>, p: Path, v: Upper, q: Path)
    requires Valid(u) && At(u, p, v) && v.UpperDir?
    ensures Valid(v)
    ensures View(m, Some(u), l, p + q) == View(m, Some(v), if OpaqueAbove(u, p) then None else Part(l, p), q)
    decreases |p|
  {
    if p == [] {
      assert p + q == q;
    } else {
      var i :| 0 <= i < |u.entries| && u.entries[i].0 == p[0] && At(u.entries[i].1, p[1..], v);
      var w, below := u.entries[i].1, if u.isOpaque then None else Child(l, p[0]);
      assert w.UpperDir? && Counts(m, u.entries, i);
      FoundAt(m, u.entries, i);
      assert (p + q)[0] == p[0] && (p + q)[1..] == p[1..] + q;
      Descend(m, w, below, p[1..], v, q);
      NothingInNothing(p[1..]);
      OneEntry(u, p, i);
    }
  }

  lemma {:induction false} OneEntry(u: Upper, p: Path, i: nat)
    requires Valid(u) && u.UpperDir? && p != [] && i < |u.entries| && u.entries[i].0 == p[0]
    ensures OpaqueAbove(u, p) <==> u.isOpaque || OpaqueAbove(u.entries[i].1, p[1..])
  {
  }

  lemma {:induction false} OpaqueOneDown(u: Upper, p: Path, v: Upper, n: Name)
    requires Valid(u) && At(u, p, v) && v.UpperDir?
    ensures OpaqueAbove(u, p + [n]) <==> OpaqueAbove(u, p) || v.isOpaque
    decreases |p|
  {
    if p == [] {
      assert p + [n] == [n];
    } else {
      var i :| 0 <= i < |u.entries| && u.entries[i].0 == p[0] && At(u.entries[i].1, p[1..], v);
      assert (p + [n])[0] == p[0] && (p + [n])[1..] == p[1..] + [n];
      OneEntry(u, p, i);
      OneEntry(u, p + [n], i);
      OpaqueOneDown(u.entries[i].1, p[1..], v, n);
    }
  }

  /** An entry shows itself at its path, and nothing below it unless it is a directory. A mount that
      drops markers does so for no other entry than a file or whiteout with a marker's name. */
  lemma {:induction false} EntryShows(m: Markers, u: Upper, l: Option<Tree>, p: Path, v: Upper, i: nat, rest: Path)
    requires Valid(u) && At(u, p, v) && v.UpperDir? && i < |v.entries|
    requires m.Shown? || v.entries[i].1.UpperDir? || !HasMarkerName(v.entries[i].0)
    ensures var q := p + [v.entries[i].0];
            && Look(Merge(m, u, l), q) == Own(v.entries[i].1)
            && (rest != [] && !v.entries[i].1.UpperDir? ==> Look(Merge(m, u, l), q + rest) == None)
  {
    var (n, w) := v.entries[i];
    Descend(m, u, l, p, v, [n]);
    Descend(m, u, l, p, v, [n] + rest);
    MarkerNameIff(n);
    assert Counts(m, v.entries, i);
    FoundAt(m, v.entries, i);
    assert ([n] + rest)[1..] == rest && p + ([n] + rest) == p + [n] + rest;
    MergeIsView(m, u, l, p + [n]);
    MergeIsView(m, u, l, p + [n] + rest);
  }

  /** Where a directory of the upper layer has no entry of a name, or has a marker that is dropped, the
      lower layer shows, with all that is below, unless that directory or one above is opaque. */
  lemma {:induction false} LowerShows(m: Markers, u: Upper, l: Option<Tree>, p: Path, v: Upper, n: Name, rest: Path)
    requires Valid(u) && At(u, p, v) && v.UpperDir?
    requires forall i | 0 <= i < |v.entries| && v.entries[i].0 == n :: m.Dropped? && !v.entries[i].1.UpperDir? && HasMarkerName(n)
    ensures Look(Merge(m, u, l), p + [n] + rest) == if OpaqueAbove(u, p + [n]) then None else Look(l, p + [n] + rest)
  {
    var q := [n] + rest;
    var below := if OpaqueAbove(u, p) then None else Part(l, p);
    Descend(m, u, l, p, v, q);
    OpaqueOneDown(u, p, v, n);
    MarkerNameIff(n);
    if Find(m, v.entries, n).Some? {
      var i := FoundIndex(m, v.entries, n);
    }
    assert q[0] == n && q[1..] == rest && p + q == p + [n] + rest;
    assert View(m, Some(v), below, q) == Look(if v.isOpaque then None else Child(below, n), rest);
    LookInPart(l, p, q);
    assert Look(Part(l, p), q) == Look(Child(Part(l, p), n), rest);
    MergeIsView(m, u, l, p + q);
  }
}
