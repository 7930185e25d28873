/** File trees, the paths into them, and the flat table of entries that iRODS keeps. */
module Trees {

  datatype Option<+T> = None | Some(value: T)

  type Name = string
  type Path = seq<Name>
  type Data = string

  /** A directory tree as a user sees it. */
  datatype Tree = File(data: Data) | Dir(entries: map<Name, Tree>)

  /** What stands at one path. */
  datatype Node = FileNode(data: Data) | DirNode

  /** The remote store: one entry per logical path, relative to the mounted collection. */
  type Remote = map<Path, Node>

  function Get<K, V>(m: map<K, V>, k: K): Option<V> {
    if k in m then Some(m[k]) else None
  }

  function Kind(t: Tree): Node {
    match t
    case File(d) => FileNode(d)
    case Dir(_) => DirNode
  }

  /** The entry called n of t, when t is a directory that has one. */
  function Child(t: Option<Tree>, n: Name): Option<Tree> {
    if t.Some? && t.value.Dir? then Get(t.value.entries, n) else None
  }

  /** What a lookup of q finds in t. */
  function Look(t: Option<Tree>, q: Path): Option<Node>
    decreases |q|
  {
    if t.None? then None
    else if q == [] then Some(Kind(t.value))
    else Look(Child(t, q[0]), q[1..])
  }

  /** The remote entries at and below p are exactly the tree t. */
  ghost predicate Holds(r: Remote, p: Path, t: Option<Tree>) {
    forall q: Path :: Get(r, p + q) == Look(t, q)
  }

  /** r and r' have the same entries at and below p. */
  ghost predicate AgreeUnder(r: Remote, r': Remote, p: Path) {
    forall q: Path | p <= q :: Get(r, q) == Get(r', q)
  }

  /** r and r' have the same entries everywhere else. */
  ghost predicate AgreeOutside(r: Remote, r': Remote, p: Path) {
    forall q: Path | !(p <= q) :: Get(r, q) == Get(r', q)
  }

  predicate IsDir(r: Remote, p: Path) {
    p in r && r[p] == DirNode
  }

  function Parent(p: Path): Path
    requires p != []
  {
    p[..|p| - 1]
  }

  /** Every entry strictly below p hangs from a directory. */
  ghost predicate TreeUnder(r: Remote, p: Path) {
    forall q: Path | q in r && p < q :: IsDir(r, Parent(q))
  }

  /** The whole table is a tree with a directory at the root. */
  ghost predicate WellFormed(r: Remote) {
    IsDir(r, []) && TreeUnder(r, [])
  }

  /** Neither path leads to the other. */
  predicate Apart(p: Path, q: Path) {
    !(p <= q) && !(q <= p)
  }

  // ---------- lemmas ----------

  lemma {:induction false} Associative<T>(a: seq<T>, b: seq<T>, c: seq<T>)
    ensures a + (b + c) == (a + b) + c
  {
  }

  lemma {:induction false} PrefixTransitive(p: Path, q: Path, s: Path)
    requires p <= q && q <= s
    ensures p <= s
  {
    assert q == s[..|q|];
    assert p == q[..|p|] == s[..|p|];
  }

  lemma {:induction false} PrefixesComparable(p: Path, q: Path, s: Path)
    requires p <= s && q <= s
    ensures p <= q || q <= p
  {
    assert p == s[..|p|] && q == s[..|q|];
    if |p| <= |q| {
      assert p == q[..|p|];
    } else {
      assert q == p[..|q|];
    }
  }

  /** A well-formed table has directories at every proper ancestor of an entry. */
  lemma {:induction false} AncestorIsDir(r: Remote, p: Path, q: Path)
    requires TreeUnder(r, p) && q in r && p <= q
    ensures forall k | |p| <= k < |q| :: IsDir(r, q[..k])
    decreases |q|
  {
    if p < q {
      var d := Parent(q);
      assert IsDir(r, d);
      assert d == q[..|q| - 1];
      AncestorIsDir(r, p, d);
      assert forall k | |p| <= k < |d| :: d[..k] == q[..k];
    }
  }

  /** In a well-formed subtree nothing lies below a path that is not a directory. */
  lemma {:induction false} NothingBelow(r: Remote, p: Path, q: Path)
    requires TreeUnder(r, p) && !IsDir(r, p) && p < q
    ensures q !in r
  {
    if q in r {
      assert q[..|p|] == p;
      AncestorIsDir(r, p, q);
    }
  }

  /** Lookups determine the tree. */
  lemma {:induction false} LookDetermines(t: Tree, u: Tree)
    requires forall q: Path :: Look(Some(t), q) == Look(Some(u), q)
    ensures t == u
    decreases t
  {
    assert Look(Some(t), []) == Look(Some(u), []);
    if t.Dir? {
      var a, b := t.entries, u.entries;
      forall n: Name
        ensures Get(a, n) == Get(b, n)
      {
        forall q: Path
          ensures Look(Get(a, n), q) == Look(Get(b, n), q)
        {
          assert ([n] + q)[1..] == q;
          assert Look(Some(t), [n] + q) == Look(Some(u), [n] + q);
        }
        assert Look(Get(a, n), []) == Look(Get(b, n), []);
        if n in a && n in b {
          LookDetermines(a[n], b[n]);
        }
      }
      assert forall n: Name :: (n in a <==> Get(a, n).Some?) && (n in b <==> Get(b, n).Some?);
      assert a == b;
    }
  }

  /** The paths at which t has something. */
  function PathsOf(t: Tree): set<Path>
    decreases t
  {
    match t
    case File(_) => {[]}
    case Dir(es) => {[]} + set n, q | n in es && q in PathsOf(es[n]) :: [n] + q
  }

  lemma {:induction false} PathsOfAre(t: Tree, q: Path)
    ensures q in PathsOf(t) <==> Look(Some(t), q).Some?
    decreases |q|
  {
    if q != [] && t.Dir? {
      var n, rest := q[0], q[1..];
      assert q == [n] + rest;
      if n in t.entries {
        PathsOfAre(t.entries[n], rest);
      }
      if q in PathsOf(t) {
        var k, s :| k in t.entries && s in PathsOf(t.entries[k]) && q == [k] + s;
        assert k == q[0] && s == q[1..];
      }
    }
  }

  /** The table that holds t. */
  function TableOf(t: Tree): Remote {
    map q | q in PathsOf(t) && Look(Some(t), q).Some? :: Look(Some(t), q).value
  }

  lemma {:induction false} TableHolds(t: Tree)
    ensures Holds(TableOf(t), [], Some(t))
  {
    forall q: Path
      ensures Get(TableOf(t), [] + q) == Look(Some(t), q)
    {
      assert [] + q == q;
      PathsOfAre(t, q);
    }
  }
}
