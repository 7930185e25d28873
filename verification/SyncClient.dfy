/** The sync tasks as they run: remote calls that may fail, on a store that changes in place. */
module SyncClient {
  import opened Trees
  import opened Walk
  import opened SyncTasks

  datatype StatResult = Found(isDir: bool) | NotFound | StatError

  /** An iRODS client. Every call may fail; a call that fails may have done part of its work. */
  class IrodsFs {
    var nodes: Remote

    constructor (initial: Remote)
      ensures nodes == initial
    {
      nodes := initial;
    }

    method Stat(p: Path) returns (res: StatResult)
      ensures res.Found? ==> p in nodes && (res.isDir <==> nodes[p].DirNode?)
      ensures res.NotFound? ==> p !in nodes
    {
      var fault := *;
      if fault {
        res := StatError;
      } else if p in nodes {
        res := Found(nodes[p].DirNode?);
      } else {
        res := NotFound;
      }
    }

    method RemoveDir(p: Path) returns (ok: bool)
      modifies this
      ensures ok ==> IsDir(old(nodes), p) && nodes == RemoveTree(old(nodes), p)
      ensures !ok ==> AgreeOutside(old(nodes), nodes, p)
    {
      var fault := *;
      if fault || !IsDir(nodes, p) {
        var lost: set<Path> := *;
        nodes := map q | q in nodes && !(p <= q && q in lost) :: nodes[q];
        return false;
      }
      nodes := RemoveTree(nodes, p);
      return true;
    }

    method RemoveFile(p: Path) returns (ok: bool)
      modifies this
      ensures ok ==> p in old(nodes) && old(nodes)[p].FileNode? && nodes == old(nodes) - {p}
      ensures !ok ==> nodes == old(nodes)
    {
      var fault := *;
      if fault || p !in nodes || nodes[p].DirNode? {
        return false;
      }
      nodes := nodes - {p};
      return true;
    }

    method MakeDir(p: Path) returns (ok: bool)
      modifies this
      ensures ok ==> nodes == MakeDirs(old(nodes), p)
      ensures !ok ==> Touches(p, old(nodes), nodes)
    {
      var fault := *;
      if fault || exists k | 0 <= k <= |p| :: p[..k] in nodes && nodes[p[..k]].FileNode? {
        var made := *;
        if 0 <= made < |p| {
          nodes := MakeDirs(nodes, p[..made]);
          PrefixesArePrefixes(p[..made]);
          forall q | q in Prefixes(p[..made])
            ensures q <= p
          {
            PrefixTransitive(q, p[..made], p);
          }
        }
        return false;
      }
      nodes := MakeDirs(nodes, p);
      return true;
    }

    /** An upload replaces a file and needs a collection to put it in; a broken one leaves a part. */
    method UploadFile(p: Path, data: Data) returns (ok: bool)
      requires p != []
      modifies this
      ensures ok ==> nodes == PutFile(old(nodes), p, data)
      ensures !ok ==> AgreeOutside(old(nodes), nodes, p)
    {
      if !IsDir(nodes, Parent(p)) || IsDir(nodes, p) {
        return false;
      }
      var fault := *;
      if fault {
        var part: Data := *;
        nodes := PutFile(nodes, p, part);
        return false;
      }
      nodes := PutFile(nodes, p, data);
      return true;
    }

    /** The entries of p, in any order. */
    method List(p: Path) returns (ok: bool, entries: seq<Listed>)
      ensures ok ==> IsListing(nodes, p, entries)
    {
      var fault := *;
      if fault {
        return false, [];
      }
      var left := set q | q in nodes && |q| == |p| + 1 && p <= q;
      ghost var all := left;
      entries := [];
      while left != {}
        invariant left <= all
        invariant Pending(nodes, p, entries)
        invariant forall q | q in all :: q in left || exists i :: 0 <= i < |entries| && p + [entries[i].0] == q
        invariant forall i | 0 <= i < |entries| :: p + [entries[i].0] !in left
        decreases |left|
      {
        var q :| q in left;
        ghost var before := entries;
        assert q == p + [q[|p|]];
        entries := entries + [(q[|p|], nodes[q].DirNode?)];
        left := left - {q};
        assert entries[|before|].0 == q[|p|];
        assert forall i | 0 <= i < |before| :: entries[i] == before[i];
      }
      forall n: Name | p + [n] in nodes
        ensures exists i :: 0 <= i < |entries| && entries[i].0 == n
      {
        assert p + [n] in all;
        var i :| 0 <= i < |entries| && p + [entries[i].0] == p + [n];
        assert (p + [entries[i].0])[|p|] == (p + [n])[|p|];
      }
      return true, entries;
    }

    /** Deletes a path and all below it, if there is one. */
    method SyncWhiteout(p: Path) returns (ok: bool)
      modifies this
      ensures ok ==> nodes == Apply(DeleteTask, p, old(nodes))
      ensures !ok ==> Touches(p, old(nodes), nodes)
    {
      var entry := Stat(p);
      match entry {
        case NotFound => return true;
        case StatError => return false;
        case Found(isDir) =>
          if isDir {
            ok := RemoveDir(p);
          } else {
            ok := RemoveFile(p);
          }
      }
    }

    /** Puts a file, in place of whatever was there. */
    method SyncFile(p: Path, data: Data) returns (ok: bool)
      requires p != []
      modifies this
      ensures ok ==> nodes == Apply(FileTask(data), p, old(nodes))
      ensures !ok ==> Touches(p, old(nodes), nodes)
    {
      var entry := Stat(p);
      if entry.StatError? {
        return false;
      }
      if entry.Found? && entry.isDir {
        ok := RemoveDir(p);
        if !ok {
          return;
        }
      }
      ok := UploadFile(p, data);
    }

    /** Makes a directory, merges it into an existing one, or empties that one if opaque. */
    /** A flag that cannot be read counts as not set, and the task goes on. */
    method SyncDir(p: Path, isOpaque: bool, flagUnreadable: bool) returns (ok: bool)
      requires TreeUnder(nodes, p)
      modifies this
      ensures ok ==> nodes == Apply(DirTask(isOpaque && !flagUnreadable), p, old(nodes))
      ensures !ok ==> Touches(p, old(nodes), nodes)
    {
      var opaqueDir := false;
      if !flagUnreadable {
        opaqueDir := isOpaque;
      }
      var entry := Stat(p);
      match entry {
        case StatError => return false;
        case NotFound => ok := MakeDir(p);
        case Found(isDir) =>
          if !isDir {
            ok := RemoveFile(p);
            if !ok {
              return;
            }
            ok := MakeDir(p);
          } else if opaqueDir {
            ok := ClearDirEntries(p);
          } else {
            ok := true;
          }
      }
    }

    method ClearDirEntries(p: Path) returns (ok: bool)
      requires TreeUnder(nodes, p)
      modifies this
      ensures ok ==> nodes == RemoveBelow(old(nodes), p)
      ensures AgreeOutside(old(nodes), nodes, p)
    {
      ghost var start := nodes;
      var entries;
      ok, entries := List(p);
      if !ok {
        return;
      }
      ListingEmpties(nodes, p, entries);
      var i := 0;
      while i < |entries|
        invariant 0 <= i <= |entries|
        invariant RemoveAllListed(nodes, p, entries[i..]) == RemoveBelow(start, p)
        invariant AgreeOutside(start, nodes, p)
      {
        var e := entries[i];
        assert entries[i..][0] == e && entries[i..][1..] == entries[i + 1..];
        ghost var before := nodes;
        if e.1 {
          ok := RemoveDir(p + [e.0]);
        } else {
          ok := RemoveFile(p + [e.0]);
        }
        ChildChange(p, e.0, before, nodes);
        if !ok {
          return;
        }
        i := i + 1;
      }
      ok := true;
    }
  }

  lemma {:induction false} PrefixesArePrefixes(p: Path)
    ensures forall q | q in Prefixes(p) :: q <= p
  {
  }

  lemma {:induction false} ChildChange(p: Path, n: Name, r: Remote, r': Remote)
    requires AgreeOutside(r, r', p + [n])
    ensures AgreeOutside(r, r', p)
  {
    forall q: Path | !(p <= q)
      ensures Get(r, q) == Get(r', q)
    {
      if p + [n] <= q {
        PrefixTransitive(p, p + [n], q);
      }
    }
  }
}
