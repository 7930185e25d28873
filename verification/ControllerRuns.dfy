/** What holds of every run of the controller service. */
module ControllerRuns {
  import opened Controller
  import opened Lexical
  import opened Trees
  import VolumeStore

  datatype Event =
    | CreateEvent(create: Create, env: Env)
    | DeleteEvent(id: string, env: Env)
    | RestartEvent

  /** How the volumes are saved. */
  datatype Setup = Setup(codec: VolumeStore.Codec<Volume>, key: VolumeStore.Bytes)

  function Reload(d: Setup, file: Option<VolumeStore.Bytes>): map<string, Volume> {
    match VolumeStore.Load(d.codec, d.key, file)
    case Returned(_, m) => m
    case Crashed => map[]
  }

  /** A restart takes the volumes from the file. */
  function Next(d: Setup, s: State, e: Event): State {
    match e
    case CreateEvent(r, env) => CreateSpec(s, r, env).0
    case DeleteEvent(id, env) => DeleteSpec(s, id, env).0
    case RestartEvent => s.(volumes := Reload(d, s.file))
  }

  function After(d: Setup, es: seq<Event>): State {
    if es == [] then State(map[], None, false, {}, []) else Next(d, After(d, es[..|es| - 1]), es[|es| - 1])
  }

  /** A save that succeeds leaves in the file the table that was to be saved, and a restart does not
      follow one that failed. */
  ghost predicate Proper(d: Setup, s: State, e: Event) {
    match e
    case CreateEvent(r, env) => !env.putFails ==> VolumeStore.Saved(d.codec, d.key, env.putFile, CreateSpec(s, r, env).0.volumes)
    case DeleteEvent(id, env) => !env.popFails ==> VolumeStore.Saved(d.codec, d.key, env.popFile, s.volumes - {id})
    case RestartEvent => !s.stale
  }

  /** The identifiers made up for new volumes are all different. */
  ghost predicate FreshIds(es: seq<Event>) {
    forall i, j | 0 <= i < j < |es| && es[i].CreateEvent? && es[j].CreateEvent? :: es[i].env.id != es[j].env.id
  }

  ghost predicate Sound(d: Setup, es: seq<Event>)
    decreases |es|
  {
    es != [] ==> var n := |es| - 1; Sound(d, es[..n]) && Proper(d, After(d, es[..n]), es[n])
  }

  ghost predicate Run(d: Setup, es: seq<Event>) {
    VolumeStore.Lawful(d.codec) && FreshIds(es) && Sound(d, es)
  }

  /** e asks for the volume v. */
  predicate Asks(e: Event, v: Volume) {
    e.CreateEvent? && Supported(e.create)
    && var c := MakeConfig(e.create.name, e.create.configs);
       c.Some? && v == NewVolume(e.env.id, e.create.name, c.value)
  }

  ghost predicate Asked(es: seq<Event>, v: Volume) {
    exists i | 0 <= i < |es| :: Asks(es[i], v)
  }

  /** The volume got a directory of its own. */
  predicate HasDir(v: Volume) {
    v.path != v.rootPath
  }

  lemma {:induction false} AskedShape(e: Event, v: Volume)
    requires Asks(e, v)
    ensures v.name != "" && IsAbs(v.rootPath)
    ensures if HasDir(v) then v.path == v.rootPath + "/" + v.name else v.retainData
  {
    assert |v.rootPath + "/" + v.name| > |v.rootPath|;
  }

  /** All that asking for a volume can change, if v is the volume asked for. */
  ghost predicate CreateChange(s: State, v: Volume, env: Env, s': State) {
    && s.dirs <= s'.dirs
    && (s'.calls == s.calls || (|s'.calls| == |s.calls| + 1 && s'.calls[..|s.calls|] == s.calls && s'.calls[|s.calls|].Mkdir?))
    && ((s'.volumes == s.volumes && s'.file == s.file && s'.stale == s.stale)
        || (&& s'.volumes == s.volumes[v.id := v] && s'.file == env.putFile && s'.stale == env.putFails
            && (HasDir(v) ==> Names(v.path) in s'.dirs)))
  }

  lemma {:induction false} CreateEffect(s: State, r: Create, env: Env)
    ensures var s' := CreateSpec(s, r, env).0;
            s' == s || exists v :: Asks(CreateEvent(r, env), v) && v.id == env.id && CreateChange(s, v, env, s')
  {
    if Supported(r) && MakeConfig(r.name, r.configs).Some? {
      var c := MakeConfig(r.name, r.configs).value;
      ProvisionEffect(s, r.name, c, env);
      assert Asks(CreateEvent(r, env), NewVolume(env.id, r.name, c));
    }
  }

  lemma {:induction false} ProvisionEffect(s: State, name: string, c: ControllerConfig, env: Env)
    requires c.notCreateVolumeDir ==> c.volumePath == c.rootPath
    ensures CreateChange(s, NewVolume(env.id, name, c), env, ProvisionSpec(s, name, c, env).0)
  {
    var names := Names(c.volumePath);
    assert names[..|names|] == names;
  }

  /** All that deleting a volume can change. */
  ghost predicate DeleteChange(s: State, id: string, env: Env, s': State) {
    && ((s'.volumes == s.volumes && s'.file == s.file && s'.stale == s.stale)
        || (id in s.volumes && s'.volumes == s.volumes - {id} && s'.file == env.popFile && s'.stale == env.popFails))
    && (s'.calls == s.calls
        || (&& id in s.volumes && id !in s'.volumes && !s.volumes[id].retainData
            && s'.calls == s.calls + [Rmdir(id, s.volumes[id].path)]))
  }

  lemma {:induction false} DeleteEffect(s: State, id: string, env: Env)
    ensures DeleteChange(s, id, env, DeleteSpec(s, id, env).0)
  {
  }

  // ---------- the volumes and their file ----------

  function StoreOf(s: State): VolumeStore.Store<Volume> {
    VolumeStore.Store(s.volumes, s.file)
  }

  /** A restart would find the volumes again, unless the last save failed. */
  ghost predicate Durable(d: Setup, s: State) {
    !s.stale ==> VolumeStore.Recoverable(d.codec, d.key, StoreOf(s))
  }

  /** An operation of the volume manager leaves a table that a restart finds. */
  lemma {:induction false} CallKeepsDurable(d: Setup, s: State, op: VolumeStore.Op<Volume>, s': State)
    requires VolumeStore.Lawful(d.codec) && VolumeStore.Saved(d.codec, d.key, s'.file, s'.volumes)
    requires VolumeStore.Next(d.codec, d.key, StoreOf(s), op, StoreOf(s'))
    ensures Durable(d, s')
  {
    VolumeStore.LoadSaved(d.codec, d.key, s'.file, s'.volumes);
  }

  lemma {:induction false} CreateKeepsDurable(d: Setup, s: State, v: Volume, env: Env, s': State)
    requires VolumeStore.Lawful(d.codec) && Durable(d, s) && CreateChange(s, v, env, s')
    requires !env.putFails ==> VolumeStore.Saved(d.codec, d.key, env.putFile, s'.volumes)
    ensures Durable(d, s')
  {
    if !s'.stale && StoreOf(s') != StoreOf(s) {
      CallKeepsDurable(d, s, VolumeStore.PutOp(v.id, v), s');
    }
  }

  lemma {:induction false} DeleteKeepsDurable(d: Setup, s: State, id: string, env: Env, s': State)
    requires VolumeStore.Lawful(d.codec) && Durable(d, s) && DeleteChange(s, id, env, s')
    requires !env.popFails ==> VolumeStore.Saved(d.codec, d.key, env.popFile, s.volumes - {id})
    ensures Durable(d, s')
  {
    if !s'.stale && s'.volumes != s.volumes {
      CallKeepsDurable(d, s, VolumeStore.PopOp(id), s');
    }
  }

  lemma {:induction false} StepKeepsDurable(d: Setup, s: State, e: Event)
    requires VolumeStore.Lawful(d.codec) && Durable(d, s) && Proper(d, s, e)
    ensures Durable(d, Next(d, s, e)) && (e.RestartEvent? ==> Next(d, s, e) == s)
    ensures e.RestartEvent? ==>
              VolumeStore.Load(d.codec, d.key, s.file).Returned? && Next(d, s, e).volumes == VolumeStore.Load(d.codec, d.key, s.file).volumes
  {
    if e.DeleteEvent? {
      DeleteEffect(s, e.id, e.env);
      DeleteKeepsDurable(d, s, e.id, e.env, Next(d, s, e));
    } else if e.CreateEvent? {
      CreateEffect(s, e.create, e.env);
      if Next(d, s, e) != s {
        var v :| CreateChange(s, v, e.env, Next(d, s, e));
        CreateKeepsDurable(d, s, v, e.env, Next(d, s, e));
      }
    }
  }

  lemma {:induction false} DurableKept(d: Setup, es: seq<Event>)
    requires VolumeStore.Lawful(d.codec) && Sound(d, es)
    ensures Durable(d, After(d, es))
    decreases |es|
  {
    if es != [] {
      var n := |es| - 1;
      DurableKept(d, es[..n]);
      StepKeepsDurable(d, After(d, es[..n]), es[n]);
    }
  }

  // ---------- what is removed ----------

  ghost function AskedFor(es: seq<Event>): iset<Volume> {
    iset v | Asked(es, v)
  }

  ghost predicate RecordsAsked(asked: iset<Volume>, s: State) {
    forall id | id in s.volumes :: s.volumes[id].id == id && s.volumes[id] in asked
  }

  /** The removal is of a volume that was asked for and may be removed. */
  ghost predicate Rightful(asked: iset<Volume>, call: DirCall) {
    exists v | v in asked :: !v.retainData && v.id == call.id && v.path == call.path
  }

  /** Every removal is rightful, and of a volume that is no longer recorded. */
  ghost predicate RemovalsAsked(asked: iset<Volume>, s: State) {
    forall i | 0 <= i < |s.calls| && s.calls[i].Rmdir? :: s.calls[i].id !in s.volumes && Rightful(asked, s.calls[i])
  }

  ghost predicate RemovedOnce(s: State) {
    forall i, j | 0 <= i < j < |s.calls| && s.calls[i].Rmdir? && s.calls[j].Rmdir? :: s.calls[i].id != s.calls[j].id
  }

  ghost predicate RemovalInv(asked: iset<Volume>, s: State) {
    RecordsAsked(asked, s) && RemovalsAsked(asked, s) && RemovedOnce(s)
  }

  lemma {:induction false} AskedGrows(es: seq<Event>, e: Event)
    ensures AskedFor(es) <= AskedFor(es + [e]) && forall v | Asks(e, v) :: v in AskedFor(es + [e])
  {
    assert (es + [e])[|es|] == e;
    forall v | Asked(es, v)
      ensures Asked(es + [e], v)
    {
      var i :| 0 <= i < |es| && Asks(es[i], v);
      assert (es + [e])[i] == es[i];
    }
  }

  /** Volumes asked for before have older identifiers than the one just made up. */
  lemma {:induction false} OldIds(es: seq<Event>, e: Event)
    requires FreshIds(es + [e]) && e.CreateEvent?
    ensures forall v | v in AskedFor(es) :: v.id != e.env.id
  {
    forall v | Asked(es, v)
      ensures v.id != e.env.id
    {
      var i :| 0 <= i < |es| && Asks(es[i], v);
      assert (es + [e])[i] == es[i] && (es + [e])[|es|] == e;
    }
  }

  lemma {:induction false} MoreAsked(asked: iset<Volume>, more: iset<Volume>, s: State)
    requires RemovalInv(asked, s) && asked <= more
    ensures RemovalInv(more, s)
  {
  }

  lemma {:induction false} CreateKeeps(asked: iset<Volume>, more: iset<Volume>, s: State, v: Volume, env: Env, s': State)
    requires RemovalInv(asked, s) && asked <= more && v in more && CreateChange(s, v, env, s')
    requires forall w | w in asked :: w.id != v.id
    ensures RemovalInv(more, s')
  {
    assert forall i | 0 <= i < |s.calls| :: s'.calls[i] == s'.calls[..|s.calls|][i];
    forall i | 0 <= i < |s'.calls| && s'.calls[i].Rmdir?
      ensures i < |s.calls| && s'.calls[i] == s.calls[i]
      ensures s'.calls[i].id !in s'.volumes && Rightful(more, s'.calls[i])
    {
      assert Rightful(asked, s.calls[i]);
    }
  }

  lemma {:induction false} DeleteKeeps(asked: iset<Volume>, s: State, id: string, env: Env, s': State)
    requires RemovalInv(asked, s) && DeleteChange(s, id, env, s')
    ensures RemovalInv(asked, s')
  {
    forall i | 0 <= i < |s'.calls| && s'.calls[i].Rmdir?
      ensures s'.calls[i].id !in s'.volumes && Rightful(asked, s'.calls[i])
    {
      if i < |s.calls| {
        assert s'.calls[i] == s.calls[i];
      }
    }
    assert forall i | 0 <= i < |s.calls| :: s'.calls[i] == s.calls[i];
  }

  lemma {:induction false} StepKeeps(d: Setup, es: seq<Event>, s: State, e: Event)
    requires RemovalInv(AskedFor(es), s) && FreshIds(es + [e])
    requires e.RestartEvent? ==> Next(d, s, e) == s
    ensures RemovalInv(AskedFor(es + [e]), Next(d, s, e))
  {
    var asked, more, s' := AskedFor(es), AskedFor(es + [e]), Next(d, s, e);
    AskedGrows(es, e);
    MoreAsked(asked, more, s);
    if e.DeleteEvent? {
      DeleteEffect(s, e.id, e.env);
      DeleteKeeps(more, s, e.id, e.env, s');
    } else if e.CreateEvent? {
      OldIds(es, e);
      CreateEffect(s, e.create, e.env);
      if s' != s {
        var v :| Asks(e, v) && v.id == e.env.id && CreateChange(s, v, e.env, s');
        CreateKeeps(asked, more, s, v, e.env, s');
      }
    }
  }

  lemma {:induction false} FewerIds(es: seq<Event>, e: Event)
    requires FreshIds(es + [e])
    ensures FreshIds(es)
  {
    assert forall i | 0 <= i < |es| :: (es + [e])[i] == es[i];
  }

  lemma {:induction false} ProperStepKeeps(d: Setup, es: seq<Event>, s: State, e: Event)
    requires VolumeStore.Lawful(d.codec) && Durable(d, s) && Proper(d, s, e)
    requires RemovalInv(AskedFor(es), s) && FreshIds(es + [e])
    ensures RemovalInv(AskedFor(es + [e]), Next(d, s, e))
  {
    StepKeepsDurable(d, s, e);
    StepKeeps(d, es, s, e);
  }

  lemma {:induction false} RemovalsKept(d: Setup, es: seq<Event>)
    requires Run(d, es)
    ensures RemovalInv(AskedFor(es), After(d, es))
    decreases |es|
  {
    if es != [] {
      var before, e := es[..|es| - 1], es[|es| - 1];
      assert before + [e] == es;
      FewerIds(before, e);
      RemovalsKept(d, before);
      DurableKept(d, before);
      ProperStepKeeps(d, before, After(d, before), e);
    }
  }

  /** What a name is as a relative path: its steps up, and the names it then leads down. */
  function Steps(name: string): nat {
    Climb(Reduce(false, [], Text.Split(name, '/')))
  }

  function Down(name: string): seq<string> {
    var names := Reduce(false, [], Text.Split(name, '/'));
    names[Climb(names)..]
  }

  lemma {:induction false} PrefixCancels(base: seq<string>, a: seq<string>, t: seq<string>)
    ensures base + a <= base + t <==> a <= t
  {
    assert forall i | 0 <= i < |a| :: (base + a)[|base| + i] == a[i];
    assert forall i | 0 <= i < |t| :: (base + t)[|base| + i] == t[i];
    if base + a <= base + t {
      assert forall i | 0 <= i < |base + a| :: (base + a)[i] == (base + t)[i];
    }
  }

  /** A name leads from the root up and then down, and the volume lies strictly below the root exactly
      if the way down begins with the names the way up has left, and goes on. */
  lemma {:induction false} ChildIff(root: string, name: string)
    requires IsAbs(root)
    ensures var base := Up(Names(root), Steps(name));
            && Names(root + "/" + name) == base + Down(name)
            && (Names(root) < Names(root + "/" + name) <==> Names(root)[|base|..] < Down(name))
  {
    var names := Names(root);
    PartsReduced(root);
    AllNamesOfAbsolute(Parts(root));
    PartsOfConcat(root, name);
    var k, t := WalkFrom(names, 0, [], Text.Split(name, '/'));
    assert Ups(0) + [] == [] && Up(names, 0) + [] == names;
    ClimbAt(k, t);
    assert (Ups(k) + t)[k..] == t;
    var base := Up(names, k);
    assert names == base + names[|base|..];
    PrefixCancels(base, names[|base|..], t);
  }

  /** An ordinary name makes the volume a direct child of its root, and no other name without a slash
      puts it anywhere below. */
  lemma {:induction false} PlainChildIff(root: string, name: string)
    requires IsAbs(root) && name != "" && '/' !in name
    ensures IsName(name) ==> Names(root + "/" + name) == Names(root) + [name]
    ensures Names(root) < Names(root + "/" + name) <==> IsName(name)
  {
    PartsOfConcat(root, name);
    Text.IndexAt(name, '/', |name|) by {
      assert name[..|name|] == name;
    }
    assert Text.Split(name, '/') == [name];
    assert Reduce(IsAbs(root), Names(root), [name]) == Push(IsAbs(root), Names(root), name) by {
      assert [name][1..] == [];
    }
    PartsReduced(root);
  }

  /** In every run, whatever fails and with restarts: a volume is removed at most once; what is removed belongs to a
      volume that was asked for with a directory of its own and without retaining its data; and for
      an ordinary name it is the child of that volume's root that has the name. */
  lemma {:induction false} DeletionConfined(d: Setup, es: seq<Event>, i: nat)
    requires Run(d, es) && i < |After(d, es).calls| && After(d, es).calls[i].Rmdir?
    ensures var call := After(d, es).calls[i];
            && (forall j | 0 <= j < |After(d, es).calls| && j != i && After(d, es).calls[j].Rmdir? :: After(d, es).calls[j].id != call.id)
            && exists v :: Asked(es, v) && v.id == call.id && v.path == call.path && !v.retainData && HasDir(v)
                        && (IsName(v.name) ==> Names(call.path) == Names(v.rootPath) + [v.name])
  {
    RemovalsKept(d, es);
    var s := After(d, es);
    var v :| Asked(es, v) && !v.retainData && v.id == s.calls[i].id && v.path == s.calls[i].path;
    var k :| 0 <= k < |es| && Asks(es[k], v);
    AskedShape(es[k], v);
    if IsName(v.name) {
      PlainChildIff(v.rootPath, v.name);
    }
  }

  /** Data that is to be retained is never removed. */
  lemma {:induction false} RetainedNeverRemoved(d: Setup, es: seq<Event>, v: Volume)
    requires Run(d, es) && Asked(es, v) && v.retainData
    ensures forall i | 0 <= i < |After(d, es).calls| && After(d, es).calls[i].Rmdir? :: After(d, es).calls[i].id != v.id
  {
    RemovalsKept(d, es);
    forall i | 0 <= i < |After(d, es).calls| && After(d, es).calls[i].Rmdir?
      ensures After(d, es).calls[i].id != v.id
    {
      var w :| Asked(es, w) && !w.retainData && w.id == After(d, es).calls[i].id;
      OneRequestPerId(es, v, w);
    }
  }

  lemma {:induction false} OneRequestPerId(es: seq<Event>, v: Volume, w: Volume)
    requires FreshIds(es) && Asked(es, v) && Asked(es, w)
    ensures v.id == w.id ==> v == w
  {
    var i :| 0 <= i < |es| && Asks(es[i], v);
    var j :| 0 <= j < |es| && Asks(es[j], w);
    assert v.id == w.id ==> i == j;
  }

  // ---------- what stays ----------

  /** Every recorded volume that got a directory still has it. */
  ghost predicate DirsThere(s: State) {
    forall id | id in s.volumes && HasDir(s.volumes[id]) :: Names(s.volumes[id].path) in s.dirs
  }

  /** Removing the volume removes the directory of no other one. */
  ghost predicate Harmless(s: State, id: string) {
    id in s.volumes && !s.volumes[id].retainData ==>
      forall w | w in s.volumes && w != id && HasDir(s.volumes[w]) :: !(Names(s.volumes[id].path) <= Names(s.volumes[w].path))
  }

  /** A successful deletion leaves the directories of the other volumes in place exactly if none of
      them is at or below the deleted one. */
  lemma {:induction false} DeleteHarmlessIff(s: State, id: string, env: Env)
    requires DirsThere(s) && DeleteSpec(s, id, env).1 == Done
    ensures DirsThere(DeleteSpec(s, id, env).0) <==> Harmless(s, id)
  {
    var s' := DeleteSpec(s, id, env).0;
    if id in s.volumes && !s.volumes[id].retainData {
      forall w | w in s.volumes && w != id && HasDir(s.volumes[w])
        ensures w in s'.volumes && s'.volumes[w] == s.volumes[w]
        ensures Names(s.volumes[w].path) in s'.dirs <==> !(Names(s.volumes[id].path) <= Names(s.volumes[w].path))
      {
      }
    }
  }

  lemma {:induction false} DeleteKeepsDirs(s: State, id: string, env: Env)
    requires DirsThere(s) && Harmless(s, id)
    ensures DirsThere(DeleteSpec(s, id, env).0)
  {
  }

  lemma {:induction false} CreateKeepsDirs(s: State, v: Volume, env: Env, s': State)
    requires DirsThere(s) && CreateChange(s, v, env, s')
    ensures DirsThere(s')
  {
  }

  /** Every recorded volume has an ordinary name and the same root, and no two have one name. */
  ghost predicate NamesApart(s: State, root: string) {
    && (forall id | id in s.volumes :: s.volumes[id].rootPath == root && IsName(s.volumes[id].name))
    && forall v, w | v in s.volumes && w in s.volumes && v != w :: s.volumes[v].name != s.volumes[w].name
  }

  lemma {:induction false} NamesApartHarmless(es: seq<Event>, s: State, root: string, id: string)
    requires RecordsAsked(AskedFor(es), s) && NamesApart(s, root)
    ensures Harmless(s, id)
  {
    if id in s.volumes && !s.volumes[id].retainData {
      var v := s.volumes[id];
      var i :| 0 <= i < |es| && Asks(es[i], v);
      AskedShape(es[i], v);
      PlainChildIff(root, v.name);
      forall w | w in s.volumes && w != id && HasDir(s.volumes[w])
        ensures !(Names(v.path) <= Names(s.volumes[w].path))
      {
        var j :| 0 <= j < |es| && Asks(es[j], s.volumes[w]);
        AskedShape(es[j], s.volumes[w]);
        PlainChildIff(root, s.volumes[w].name);
        assert Names(v.path)[|Names(root)|] == v.name && Names(s.volumes[w].path)[|Names(root)|] == s.volumes[w].name;
      }
    }
  }

  lemma {:induction false} StepKeepsDirs(d: Setup, es: seq<Event>, s: State, root: string, e: Event)
    requires DirsThere(s) && RecordsAsked(AskedFor(es), s) && NamesApart(s, root)
    requires e.RestartEvent? ==> Next(d, s, e) == s
    ensures DirsThere(Next(d, s, e))
  {
    if e.DeleteEvent? {
      NamesApartHarmless(es, s, root, e.id);
      DeleteKeepsDirs(s, e.id, e.env);
    } else if e.CreateEvent? {
      CreateEffect(s, e.create, e.env);
      if Next(d, s, e) != s {
        var v :| CreateChange(s, v, e.env, Next(d, s, e));
        CreateKeepsDirs(s, v, e.env, Next(d, s, e));
      }
    }
  }

  /** As long as the volumes recorded at any time are under one root with ordinary names that are all
      different, every one of them keeps its directory until it is deleted itself. */
  lemma {:induction false} DirectoriesStay(d: Setup, es: seq<Event>, root: string)
    requires Run(d, es) && forall n | 0 <= n <= |es| :: NamesApart(After(d, es[..n]), root)
    ensures DirsThere(After(d, es))
    decreases |es|
  {
    if es != [] {
      var n := |es| - 1;
      var before := es[..n];
      forall m | 0 <= m <= n
        ensures NamesApart(After(d, before[..m]), root)
      {
        assert before[..m] == es[..m];
      }
      DirectoriesStay(d, before, root);
      RemovalsKept(d, before);
      DurableKept(d, before);
      StepKeepsDurable(d, After(d, before), es[n]);
      StepKeepsDirs(d, before, After(d, before), root, es[n]);
    }
  }

  /** Asking twice for the same name makes two volumes with one directory, and deleting the first
      takes the directory from the second. */
  lemma {:induction false} SameNameClash(s: State, one: State, two: State, r: Create, env1: Env, env2: Env, env3: Env)
    requires env1.id != "" && env2.id != env1.id && !env3.popFails && !env3.rmdirFails
    requires CreateSpec(s, r, env1) == (one, Done) && CreateSpec(one, r, env2) == (two, Done)
    requires env2.id in two.volumes ==> !two.volumes[env2.id].retainData
    ensures var (s', reply) := DeleteSpec(two, env1.id, env3);
            && env1.id in two.volumes && env2.id in two.volumes
            && two.volumes[env1.id].path == two.volumes[env2.id].path
            && reply == Done && env2.id in s'.volumes && HasDir(s'.volumes[env2.id])
            && Names(s'.volumes[env2.id].path) !in s'.dirs
  {
    var c := Requested(s, r, env1);
    Provisioned(s, r.name, c, env1, one);
    Provisioned(one, r.name, c, env2, two);
    TwinLosesDir(two, env1.id, env2.id, env3);
  }

  /** A request that succeeded had a configuration, which alone decides what is provisioned. */
  lemma {:induction false} Requested(s: State, r: Create, env: Env) returns (c: ControllerConfig)
    requires CreateSpec(s, r, env).1 == Done
    ensures forall t, e :: CreateSpec(t, r, e) == ProvisionSpec(t, r.name, c, e)
    ensures !c.retainData ==> c.volumePath != c.rootPath
  {
    c := MakeConfig(r.name, r.configs).value;
    PlacedApart(r.name, ReadConfig(r.configs).value);
  }

  lemma {:induction false} PlacedApart(name: string, c: ControllerConfig)
    ensures Place(name, c).Some? && !Place(name, c).value.retainData ==> Place(name, c).value.volumePath != Place(name, c).value.rootPath
  {
    assert |c.rootPath + "/" + name| > |c.rootPath|;
  }

  lemma {:induction false} Provisioned(s: State, name: string, c: ControllerConfig, env: Env, s': State)
    requires ProvisionSpec(s, name, c, env) == (s', Done)
    ensures s'.volumes == s.volumes[env.id := NewVolume(env.id, name, c)]
  {
  }

  lemma {:induction false} TwinLosesDir(s: State, id: string, twin: string, env: Env)
    requires id != "" && twin != id && id in s.volumes && twin in s.volumes
    requires s.volumes[id].path == s.volumes[twin].path && !s.volumes[id].retainData && !env.popFails && !env.rmdirFails
    ensures var (s', reply) := DeleteSpec(s, id, env);
            && reply == Done && twin in s'.volumes && s'.volumes[twin] == s.volumes[twin]
            && Names(s'.volumes[twin].path) !in s'.dirs
  {
  }
}
