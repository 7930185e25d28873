/** Lexical paths, as Go's path/filepath has them on Unix. */
module Lexical {
  import opened Text
  import opened Trees

  /** A cleaned path: whether it starts at the root, and its names. */
  datatype CleanPath = CleanPath(absolute: bool, names: seq<string>)

  function Push(absolute: bool, names: seq<string>, part: string): seq<string> {
    if part == "" || part == "." then names
    else if part != ".." then names + [part]
    else if names != [] && names[|names| - 1] != ".." then names[..|names| - 1]
    else if absolute then names
    else names + [".."]
  }

  function Reduce(absolute: bool, names: seq<string>, parts: seq<string>): seq<string>
    decreases |parts|
  {
    if parts == [] then names else Reduce(absolute, Push(absolute, names, parts[0]), parts[1..])
  }

  predicate IsAbs(s: string) {
    s != "" && s[0] == '/'
  }

  function Parts(s: string): CleanPath {
    CleanPath(IsAbs(s), Reduce(IsAbs(s), [], Split(s, '/')))
  }

  function Render(c: CleanPath): string {
    if c.absolute then "/" + Join(c.names, '/')
    else if c.names == [] then "."
    else Join(c.names, '/')
  }

  /** filepath.Clean */
  function Clean(s: string): string {
    Render(Parts(s))
  }

  /** filepath.Join of two elements; empty ones are left out. */
  function JoinPaths(a: string, b: string): string {
    if a == "" && b == "" then ""
    else if a == "" then Clean(b)
    else if b == "" then Clean(a)
    else Clean(a + "/" + b)
  }

  // ---------- what cleaning leaves ----------

  /** A file name. */
  predicate IsName(s: string) {
    s != "" && s != "." && s != ".." && '/' !in s
  }

  predicate AllNames(names: seq<string>) {
    forall n | n in names :: IsName(n)
  }

  /** Steps up come first, and a path from the root has none. */
  ghost predicate Reduced(c: CleanPath) {
    forall i | 0 <= i < |c.names| ::
      IsName(c.names[i]) || (c.names[i] == ".." && !c.absolute && forall j | 0 <= j < i :: c.names[j] == "..")
  }

  lemma {:induction false} PushReduced(absolute: bool, names: seq<string>, part: string)
    requires Reduced(CleanPath(absolute, names)) && '/' !in part
    ensures Reduced(CleanPath(absolute, Push(absolute, names, part)))
  {
    if part == ".." && names != [] && names[|names| - 1] == ".." {
      var i := |names| - 1;
      assert names[i] == ".." && !IsName(names[i]);
    }
  }

  lemma {:induction false} ReduceReduced(absolute: bool, names: seq<string>, parts: seq<string>)
    requires Reduced(CleanPath(absolute, names)) && forall p | p in parts :: '/' !in p
    ensures Reduced(CleanPath(absolute, Reduce(absolute, names, parts)))
    decreases |parts|
  {
    if parts != [] {
      PushReduced(absolute, names, parts[0]);
      ReduceReduced(absolute, Push(absolute, names, parts[0]), parts[1..]);
    }
  }

  lemma {:induction false} PartsReduced(s: string)
    ensures Reduced(Parts(s))
  {
    ReduceReduced(IsAbs(s), [], Split(s, '/'));
  }

  lemma {:induction false} ReduceConcat(absolute: bool, names: seq<string>, a: seq<string>, b: seq<string>)
    ensures Reduce(absolute, names, a + b) == Reduce(absolute, Reduce(absolute, names, a), b)
    decreases |a|
  {
    if a == [] {
      assert a + b == b;
    } else {
      assert (a + b)[1..] == a[1..] + b;
      ReduceConcat(absolute, Push(absolute, names, a[0]), a[1..], b);
    }
  }

  lemma {:induction false} ReduceKeeps(absolute: bool, done: seq<string>, names: seq<string>)
    requires Reduced(CleanPath(absolute, done + names)) || AllNames(names)
    ensures Reduce(absolute, done, names) == done + names
    decreases |names|
  {
    if names == [] {
      assert done + names == done;
    } else {
      var c := CleanPath(absolute, done + names);
      assert c.names[|done|] == names[0];
      if names[0] == ".." && done != [] {
        assert !IsName(names[0]);
        assert c.names[|done| - 1] == done[|done| - 1];
      }
      assert Push(absolute, done, names[0]) == done + [names[0]];
      assert done + [names[0]] + names[1..] == done + names;
      ReduceKeeps(absolute, done + [names[0]], names[1..]);
    }
  }

  lemma {:induction false} JoinedNames(c: CleanPath)
    requires Reduced(c) && c.names != []
    ensures Split(Join(c.names, '/'), '/') == c.names && Join(c.names, '/') != "" && !IsAbs(Join(c.names, '/'))
  {
    assert '/' !in "..";
    assert forall n | n in c.names :: n != "" && '/' !in n;
    SplitOfJoin(c.names, '/');
    assert c.names[0] in c.names && c.names[0][0] in c.names[0];
    assert Join(c.names, '/')[0] == c.names[0][0];
  }

  lemma {:induction false} SplitNothing()
    ensures Split("", '/') == [""] && Split(".", '/') == ["."]
  {
  }

  lemma {:induction false} PartsOfAbsolute(body: string)
    ensures Parts("/" + body) == CleanPath(true, Reduce(true, [], Split(body, '/')))
  {
    SplitNothing();
    assert "/" + body == "" + ['/'] + body;
    SplitOfConcat("", body, '/');
    ReduceConcat(true, [], [""], Split(body, '/'));
    assert [""][1..] == [];
  }

  /** Rendering a cleaned path loses nothing. */
  lemma {:induction false} PartsOfRender(c: CleanPath)
    requires Reduced(c)
    ensures Parts(Render(c)) == c
  {
    ReduceKeeps(c.absolute, [], c.names);
    assert [] + c.names == c.names;
    if c.names == [] {
      SplitNothing();
    } else {
      JoinedNames(c);
    }
    if c.absolute {
      PartsOfAbsolute(Join(c.names, '/'));
    }
  }

  /** Cleaning a clean path changes nothing. */
  lemma {:induction false} CleanIdempotent(s: string)
    ensures Parts(Clean(s)) == Parts(s) && Clean(Clean(s)) == Clean(s)
  {
    PartsReduced(s);
    PartsOfRender(Parts(s));
  }

  /** What follows a slash is walked from where the part before it ends. */
  lemma {:induction false} PartsOfConcat(a: string, b: string)
    requires a != ""
    ensures Parts(a + "/" + b) == CleanPath(IsAbs(a), Reduce(IsAbs(a), Parts(a).names, Split(b, '/')))
  {
    assert a + "/" + b == a + ['/'] + b;
    SplitOfConcat(a, b, '/');
    ReduceConcat(IsAbs(a), [], Split(a, '/'), Split(b, '/'));
  }

  // ---------- the rules of cleaning ----------

  /** Empty parts and dots are left out. */
  lemma {:induction false} CleanSkips(s: string, t: string, a: seq<string>, dot: string, b: seq<string>)
    requires Split(s, '/') == a + [dot] + b && Split(t, '/') == a + b && IsAbs(s) == IsAbs(t) && (dot == "" || dot == ".")
    ensures Parts(s) == Parts(t)
  {
    ReduceConcat(IsAbs(s), [], a + [dot], b);
    ReduceConcat(IsAbs(s), [], a, [dot]);
    ReduceConcat(IsAbs(s), [], a, b);
    assert [dot][1..] == [];
  }

  /** A name and a step up after it go together. */
  lemma {:induction false} CleanPops(s: string, t: string, a: seq<string>, name: string, b: seq<string>)
    requires Split(s, '/') == a + [name, ".."] + b && Split(t, '/') == a + b && IsAbs(s) == IsAbs(t) && IsName(name)
    ensures Parts(s) == Parts(t)
  {
    ReduceConcat(IsAbs(s), [], a + [name, ".."], b);
    ReduceConcat(IsAbs(s), [], a, [name, ".."]);
    ReduceConcat(IsAbs(s), [], a, b);
    assert [name, ".."][1..] == [".."] && [".."][1..] == [];
    var names := Reduce(IsAbs(s), [], a);
    assert (names + [name])[..|names|] == names;
  }

  /** There is no step up from the root. */
  lemma {:induction false} CleanStopsAtRoot(body: string)
    ensures Parts("/../" + body) == Parts("/" + body)
  {
    var below := ".." + ['/'] + body;
    assert "/../" + body == "/" + below;
    PartsOfAbsolute(below);
    PartsOfAbsolute(body);
    SplitOfConcat("..", body, '/');
    SplitWhole("..", '/');
    StepFromRoot(Split(body, '/'));
  }

  lemma {:induction false} StepFromRoot(parts: seq<string>)
    ensures Reduce(true, [], [".."] + parts) == Reduce(true, [], parts)
  {
    assert ([".."] + parts)[1..] == parts;
  }

  /** Names with single slashes between them stay as they are, after the root and after steps up. */
  lemma {:induction false} CleanKeeps(names: seq<string>, k: nat)
    requires AllNames(names)
    ensures Parts("/" + Join(names, '/')) == CleanPath(true, names)
    ensures Ups(k) + names != [] ==> Parts(Join(Ups(k) + names, '/')) == CleanPath(false, Ups(k) + names)
  {
    assert Render(CleanPath(true, names)) == "/" + Join(names, '/');
    PartsOfRender(CleanPath(true, names));
    var c := CleanPath(false, Ups(k) + names);
    forall i | 0 <= i < |c.names|
      ensures IsName(c.names[i]) || (i < k && c.names[i] == "..")
    {
      assert i >= k ==> c.names[i] in names;
    }
    PartsOfRender(c);
  }

  // ---------- walking on from a directory ----------

  lemma {:induction false} AllNamesOfAbsolute(c: CleanPath)
    requires Reduced(c) && c.absolute
    ensures AllNames(c.names)
  {
    forall n | n in c.names
      ensures IsName(n)
    {
      var i :| 0 <= i < |c.names| && c.names[i] == n;
    }
  }

  function Ups(n: nat): (r: seq<string>)
    ensures |r| == n && forall i | 0 <= i < n :: r[i] == ".."
  {
    seq(n, _ => "..")
  }

  /** k steps up from names; the root has nothing above it. */
  function Up(names: seq<string>, k: nat): seq<string> {
    if k >= |names| then [] else names[..|names| - k]
  }

  /** The steps up with which a cleaned relative path begins. */
  function Climb(names: seq<string>): (k: nat)
    ensures k <= |names| && forall i | 0 <= i < k :: names[i] == ".."
  {
    if names == [] || names[0] != ".." then 0 else 1 + Climb(names[1..])
  }

  lemma {:induction false} ClimbAt(k: nat, t: seq<string>)
    requires AllNames(t)
    ensures Climb(Ups(k) + t) == k
  {
    if k > 0 {
      assert (Ups(k) + t)[1..] == Ups(k - 1) + t;
      ClimbAt(k - 1, t);
    } else {
      assert Ups(0) + t == t;
      assert t != [] ==> t[0] in t;
    }
  }

  lemma {:induction false} PopLast(absolute: bool, base: seq<string>, t: seq<string>)
    requires t != [] && AllNames(t)
    ensures Push(absolute, base + t, "..") == base + t[..|t| - 1]
  {
    assert t[|t| - 1] in t;
    assert (base + t)[..|base| + |t| - 1] == base + t[..|t| - 1];
  }

  lemma {:induction false} ClimbOne(names: seq<string>, k: nat)
    requires AllNames(names)
    ensures Push(false, Ups(k), "..") == Ups(k + 1) && Push(true, Up(names, k), "..") == Up(names, k + 1)
  {
    assert Ups(k) + [".."] == Ups(k + 1);
    if k < |names| {
      assert names[|names| - k - 1] in names;
    }
  }

  /** A relative path is walked from a directory as its cleaned form says: up first, then down. */
  lemma {:induction false} WalkFrom(names: seq<string>, k: nat, t: seq<string>, parts: seq<string>) returns (k': nat, t': seq<string>)
    requires AllNames(names) && AllNames(t) && forall p | p in parts :: '/' !in p
    ensures AllNames(t') && Reduce(false, Ups(k) + t, parts) == Ups(k') + t'
    ensures Reduce(true, Up(names, k) + t, parts) == Up(names, k') + t'
    decreases |parts|
  {
    if parts == [] {
      return k, t;
    }
    var part := parts[0];
    if part == "" || part == "." {
      k', t' := WalkFrom(names, k, t, parts[1..]);
    } else if part != ".." {
      assert Ups(k) + t + [part] == Ups(k) + (t + [part]);
      assert Up(names, k) + t + [part] == Up(names, k) + (t + [part]);
      k', t' := WalkFrom(names, k, t + [part], parts[1..]);
    } else {
      if t != [] {
        PopLast(false, Ups(k), t);
        PopLast(true, Up(names, k), t);
        k', t' := WalkFrom(names, k, t[..|t| - 1], parts[1..]);
      } else {
        ClimbOne(names, k);
        assert Ups(k) + [] == Ups(k) && Up(names, k) + [] == Up(names, k);
        assert Ups(k + 1) + [] == Ups(k + 1) && Up(names, k + 1) + [] == Up(names, k + 1);
        k', t' := WalkFrom(names, k + 1, [], parts[1..]);
      }
    }
  }

  // ---------- relative paths ----------

  function Common(a: seq<string>, b: seq<string>): (k: nat)
    ensures k <= |a| && k <= |b| && a[..k] == b[..k]
    ensures k == |a| || k == |b| || a[k] != b[k]
  {
    if a == [] || b == [] || a[0] != b[0] then 0
    else
      var k := Common(a[1..], b[1..]);
      assert a[..k + 1] == [a[0]] + a[1..][..k] && b[..k + 1] == [b[0]] + b[1..][..k];
      k + 1
  }

  /** filepath.Rel: up from what is left of the base, then down what is left of the target. There is
      none if one of them starts at the root only, or what is left of the base starts above it. */
  function Rel(base: string, target: string): Option<string> {
    var b, t := Parts(base), Parts(target);
    var k := Common(b.names, t.names);
    if b == t then Some(".")
    else if b.absolute != t.absolute || (k < |b.names| && b.names[k] == "..") then None
    else if !t.absolute && t.names == [] then Some(Join(Ups(|b.names|) + ["."], '/'))
    else Some(Join(Ups(|b.names| - k) + t.names[k..], '/'))
  }

  /** target lies lexically at or below base. */
  predicate Within(base: string, target: string) {
    Parts(base).absolute == Parts(target).absolute && Parts(base).names <= Parts(target).names
  }

  /** The name with which the way down from base to target starts. */
  function FirstLeft(base: string, target: string): string
    requires Within(base, target) && Parts(base) != Parts(target)
  {
    Parts(target).names[|Parts(base).names|]
  }

  lemma {:induction false} CommonIsPrefix(a: seq<string>, b: seq<string>)
    ensures Common(a, b) == |a| <==> a <= b
  {
    var k := Common(a, b);
    assert a <= b ==> forall i | 0 <= i < |a| :: a[i] == b[i];
    assert k == |a| ==> a[..k] == a && b[..k] == a;
  }

  /** Only the first name of a joined list decides how it starts. */
  lemma {:induction false} JoinStarts(names: seq<string>)
    requires names != [] && names[0] != "" && '/' !in names[0]
    ensures ".." <= Join(names, '/') <==> ".." <= names[0]
    ensures Join(names, '/') == ".." || "../" <= Join(names, '/') <==> names[0] == ".."
  {
    var s := Join(names, '/');
    var n := names[0];
    assert forall i | 0 <= i < |n| :: s[i] == n[i];
    assert forall i | 0 <= i < |n| :: n[i] in n;
    assert |names| > 1 ==> s[|n|] == '/';
    assert n == ".." <==> |n| == 2 && n[0] == '.' && n[1] == '.';
    assert s == ".." <==> |s| == 2 && s[0] == '.' && s[1] == '.';
    assert "../" <= s <==> |s| >= 3 && s[0] == '.' && s[1] == '.' && s[2] == '/';
  }

  lemma {:induction false} RelBelow(base: string, target: string)
    requires Within(base, target) && Parts(base) != Parts(target)
    ensures var r := Rel(base, target);
            var n := FirstLeft(base, target);
            r.Some? && (".." <= r.value <==> ".." <= n) && (r.value == ".." || "../" <= r.value <==> n == "..")
  {
    var b, t := Parts(base), Parts(target);
    CommonIsPrefix(b.names, t.names);
    PartsReduced(target);
    var left := t.names[|b.names|..];
    assert b.names == t.names[..|b.names|];
    assert |b.names| < |t.names|;
    assert left[0] == t.names[|b.names|];
    assert Ups(0) + left == left;
    assert '/' !in "..";
    JoinStarts(left);
  }

  lemma {:induction false} RelAside(base: string, target: string)
    requires !Within(base, target) && Rel(base, target).Some?
    ensures var r := Rel(base, target).value;
            ".." <= r && (r == ".." || "../" <= r)
  {
    var b, t := Parts(base), Parts(target);
    var k := Common(b.names, t.names);
    CommonIsPrefix(b.names, t.names);
    assert k < |b.names|;
    if !t.absolute && t.names == [] {
      JoinStarts(Ups(|b.names|) + ["."]);
    } else {
      JoinStarts(Ups(|b.names| - k) + t.names[k..]);
    }
  }

  /** How a relative path starts tells where the target lies. */
  lemma {:induction false} RelStarts(base: string, target: string)
    ensures var r := Rel(base, target);
            if Parts(base) == Parts(target) then r == Some(".")
            else if Within(base, target) then
              var n := FirstLeft(base, target);
              r.Some? && (".." <= r.value <==> ".." <= n) && (r.value == ".." || "../" <= r.value <==> n == "..")
            else r.Some? ==> ".." <= r.value && (r.value == ".." || "../" <= r.value)
  {
    if Parts(base) != Parts(target) {
      if Within(base, target) {
        RelBelow(base, target);
      } else if Rel(base, target).Some? {
        RelAside(base, target);
      }
    }
  }
}
