/** Finding every other place where what is mounted at a path is mounted too. */
module MountSearch {
  import opened Lexical
  import opened MountInfo
  import opened Text
  import opened Trees

  predicate StartsWithBackstep(rel: string) {
    rel == ".." || "../" <= rel
  }

  predicate PathWithinBase(path: string, base: string) {
    var rel := Rel(base, path);
    rel.Some? && !StartsWithBackstep(rel.value)
  }

  predicate Covers(e: Entry, path: string) {
    path == e.mountPoint || PathWithinBase(path, e.mountPoint)
  }

  /** Where path lies in the file system that e mounts. */
  function RootPath(e: Entry, path: string): string {
    JoinPaths(e.root, TrimPrefix(path, e.mountPoint))
  }

  /** A later mount hides the earlier ones. */
  ghost predicate LastCover(entries: seq<Entry>, path: string, i: int) {
    0 <= i < |entries| && Covers(entries[i], path) && forall j | i < j < |entries| :: !Covers(entries[j], path)
  }

  predicate SameSource(e: Entry, source: Entry, path: string) {
    e.id != source.id && e.root == RootPath(source, path) && e.major == source.major && e.minor == source.minor
  }

  /** The other mount points of the same source, in the order of the table. */
  function Refs(entries: seq<Entry>, source: Entry, path: string): seq<string> {
    if entries == [] then []
    else
      var e := entries[|entries| - 1];
      Refs(entries[..|entries| - 1], source, path) + if SameSource(e, source, path) then [e.mountPoint] else []
  }

  method FindCover(entries: seq<Entry>, hostSource: string) returns (found: bool, i: int)
    ensures found ==> LastCover(entries, hostSource, i)
    ensures !found ==> forall j | 0 <= j < |entries| :: !Covers(entries[j], hostSource)
  {
    i := |entries| - 1;
    while i >= 0
      invariant -1 <= i < |entries|
      invariant forall j | i < j < |entries| :: !Covers(entries[j], hostSource)
    {
      var covers := Covers(entries[i], hostSource);
      if covers {
        return true, i;
      }
      i := i - 1;
    }
    return false, -1;
  }

  method CollectRefs(entries: seq<Entry>, mountID: int, rootPath: string, major: int, minor: int, ghost source: Entry,
                     ghost path: string)
      returns (refs: seq<string>)
    requires mountID == source.id && rootPath == RootPath(source, path) && major == source.major && minor == source.minor
    ensures refs == Refs(entries, source, path)
  {
    refs := [];
    for i := 0 to |entries|
      invariant refs == Refs(entries[..i], source, path)
    {
      assert entries[..i + 1][..i] == entries[..i];
      if entries[i].id == mountID {
        continue;
      }
      if entries[i].root == rootPath && entries[i].major == major && entries[i].minor == minor {
        refs := refs + [entries[i].mountPoint];
      }
    }
    assert entries[..|entries|] == entries;
  }

  method SearchMountPoints(entries: seq<Entry>, hostSource: string) returns (r: Option<seq<string>>)
    ensures r.Some? <==> exists i ::
              && LastCover(entries, hostSource, i) && entries[i].major != -1 && entries[i].minor != -1
              && RootPath(entries[i], hostSource) != ""
    ensures r.Some? ==> forall i | LastCover(entries, hostSource, i) :: r.value == Refs(entries, entries[i], hostSource)
  {
    var mountID, rootPath, major, minor := 0, "", -1, -1;
    var found, s := FindCover(entries, hostSource);
    if found {
      mountID, rootPath, major, minor := entries[s].id, RootPath(entries[s], hostSource), entries[s].major, entries[s].minor;
    }
    if rootPath == "" || major == -1 || minor == -1 {
      return None;
    }
    var refs := CollectRefs(entries, mountID, rootPath, major, minor, entries[s], hostSource);
    r := Some(refs);
  }

  /** Where in the table the references come from. */
  function RefIndices(entries: seq<Entry>, source: Entry, path: string): (at: seq<nat>)
    ensures forall k | 0 <= k < |at| :: at[k] < |entries|
  {
    if entries == [] then []
    else
      var n := |entries| - 1;
      RefIndices(entries[..n], source, path) + if SameSource(entries[n], source, path) then [n] else []
  }

  lemma {:induction false} RefsAtIndices(entries: seq<Entry>, source: Entry, path: string)
    ensures var at, refs := RefIndices(entries, source, path), Refs(entries, source, path);
            |at| == |refs| && forall k | 0 <= k < |at| :: refs[k] == entries[at[k]].mountPoint
  {
    if entries != [] {
      RefsAtIndices(entries[..|entries| - 1], source, path);
    }
  }

  predicate Ascends(at: seq<nat>) {
    forall k, l | 0 <= k < l < |at| :: at[k] < at[l]
  }

  lemma {:induction false} IndicesAscend(entries: seq<Entry>, source: Entry, path: string)
    ensures Ascends(RefIndices(entries, source, path))
  {
    if entries != [] {
      var n := |entries| - 1;
      IndicesAscend(entries[..n], source, path);
      assert forall k | 0 <= k < |RefIndices(entries[..n], source, path)| :: RefIndices(entries[..n], source, path)[k] < n;
    }
  }

  lemma {:induction false} IndexIff(entries: seq<Entry>, source: Entry, path: string, i: nat)
    requires i < |entries|
    ensures i in RefIndices(entries, source, path) <==>
              && entries[i].id != source.id && entries[i].root == RootPath(source, path)
              && entries[i].major == source.major && entries[i].minor == source.minor
  {
    var n := |entries| - 1;
    if i < n {
      IndexIff(entries[..n], source, path, i);
    } else {
      assert forall k | 0 <= k < |RefIndices(entries[..n], source, path)| :: RefIndices(entries[..n], source, path)[k] < n;
    }
  }

  /** The references are the mount points, in the order of the table, of exactly the other entries with
      the same device and, as their root, the path in the file system that is looked for. */
  lemma {:induction false} RefsExactly(entries: seq<Entry>, source: Entry, path: string) returns (at: seq<nat>)
    ensures |at| == |Refs(entries, source, path)|
    ensures forall k | 0 <= k < |at| :: at[k] < |entries| && Refs(entries, source, path)[k] == entries[at[k]].mountPoint
    ensures forall k, l | 0 <= k < l < |at| :: at[k] < at[l]
    ensures forall i | 0 <= i < |entries| ::
              i in at <==> && entries[i].id != source.id && entries[i].root == RootPath(source, path)
                           && entries[i].major == source.major && entries[i].minor == source.minor
  {
    at := RefIndices(entries, source, path);
    RefsAtIndices(entries, source, path);
    IndicesAscend(entries, source, path);
    forall i | 0 <= i < |entries| {
      IndexIff(entries, source, path, i);
    }
  }

  /** For an absolute path, covering is lying at or below the mount point, whatever the names look
      like. */
  lemma {:induction false} CoversIff(e: Entry, path: string)
    requires IsAbs(path)
    ensures Covers(e, path) <==> Within(e.mountPoint, path)
  {
    RelStarts(e.mountPoint, path);
    PartsReduced(path);
  }

  /** Of two clean absolute paths one below the other, the rest is what the text has after the
      upper one. */
  lemma {:induction false} TrimmedNames(upper: seq<string>, rest: seq<string>)
    requires upper != [] && rest != []
    ensures var path := "/" + Join(upper + rest, '/');
            TrimPrefix(path, "/" + Join(upper, '/')) == "/" + Join(rest, '/')
  {
    JoinOfConcat(upper, rest, '/');
    var base := "/" + Join(upper, '/');
    assert "/" + Join(upper + rest, '/') == base + ("/" + Join(rest, '/'));
  }

  lemma {:induction false} WalkDown(root: string, rest: seq<string>, slash: bool)
    requires root != "" && rest != [] && AllNames(rest)
    ensures Parts(JoinPaths(root, (if slash then "/" else "") + Join(rest, '/')))
         == CleanPath(IsAbs(root), Parts(root).names + rest)
  {
    var body := Join(rest, '/');
    JoinedNames(CleanPath(true, rest));
    var below := (if slash then "/" else "") + body;
    var names := Parts(root).names;
    assert Split(below, '/') == (if slash then [""] else []) + rest by {
      if slash {
        assert below == "" + ['/'] + body;
        SplitOfConcat("", body, '/');
        SplitNothing();
      } else {
        assert below == body && [] + rest == rest;
      }
    }
    ReduceKeeps(IsAbs(root), names, rest);
    if slash {
      ReduceConcat(IsAbs(root), names, [""], rest);
    } else {
      assert [] + rest == rest;
    }
    PartsOfConcat(root, below);
    CleanIdempotent(root + "/" + below);
  }

  lemma {:induction false} RootPathClean(e: Entry, path: string)
    requires e.root != ""
    ensures Render(Parts(RootPath(e, path))) == RootPath(e, path)
  {
    var below := TrimPrefix(path, e.mountPoint);
    CleanIdempotent(e.root);
    CleanIdempotent(e.root + "/" + below);
  }

  /** The root path that is compared names exactly the same names below the root of the mount as the
      path has below its mount point. */
  lemma {:induction false} RootPathNames(e: Entry, path: string)
    requires IsAbs(path) && Clean(path) == path && IsAbs(e.mountPoint) && Clean(e.mountPoint) == e.mountPoint
    requires Covers(e, path) && e.root != ""
    ensures var rest := Parts(path).names[|Parts(e.mountPoint).names|..];
            && Parts(RootPath(e, path)) == CleanPath(IsAbs(e.root), Parts(e.root).names + rest)
            && (IsAbs(e.root) ==> RootPath(e, path) == "/" + Join(Parts(e.root).names + rest, '/'))
  {
    CoversIff(e, path);
    RootPathClean(e, path);
    PartsReduced(path);
    AllNamesOfAbsolute(Parts(path));
    var upper, names := Parts(e.mountPoint).names, Parts(path).names;
    var rest := names[|upper|..];
    assert names == upper + rest;
    if rest == [] {
      assert TrimPrefix(path, e.mountPoint) == "";
      CleanIdempotent(e.root);
      assert Parts(e.root).names + rest == Parts(e.root).names;
    } else if upper == [] {
      assert rest == names && e.mountPoint == "/" && path == "/" + Join(rest, '/');
      assert TrimPrefix(path, e.mountPoint) == "" + Join(rest, '/');
      WalkDown(e.root, rest, false);
    } else {
      TrimmedNames(upper, rest);
      WalkDown(e.root, rest, true);
    }
  }
}
