/** What a request to create a volume says, read off its parameters word by word, and what comes of it
    up to the removal of the volume. */
module ControllerLaws {
  import opened ConfigMerge
  import opened Controller
  import opened ControllerRuns
  import Lexical
  import opened Text
  import opened Trees
  import NodeServer
  import VolumeStore

  predicate Yes(word: string) {
    word in {"1", "t", "T", "TRUE", "true", "True"}
  }

  predicate No(word: string) {
    word in {"0", "f", "F", "FALSE", "false", "False"}
  }

  predicate SaysYes(params: Params, key: string) {
    key in params && Yes(params[key])
  }

  /** The key is missing, or says no. */
  predicate SaysNo(params: Params, key: string) {
    key in params ==> No(params[key])
  }

  /** Some other word than those for yes and no. */
  predicate IsUnclear(params: Params, key: string) {
    key in params && !Yes(params[key]) && !No(params[key])
  }

  /** A path from the root other than a row of slashes. */
  predicate IsRootPath(v: string) {
    v == "/" || (v != "" && v[0] == '/' && exists i | 0 <= i < |v| :: v[i] != '/')
  }

  /** The path without the slashes at its end. */
  predicate IsTrimmed(v: string, root: string) {
    && root <= v && (forall i | |root| <= i < |v| :: v[i] == '/')
    && root != "" && (root[|root| - 1] != '/' || v == "/")
  }

  // ---------- the words and keys ----------

  lemma {:induction false} RootWords()
    ensures "volume_root_path" == "volume" + "_" + "root" + "_" + "path" && "volumerootpath" == "volume" + "root" + "path"
    ensures IsPlain("volume") && IsPlain("root") && IsPlain("path")
  {
  }

  lemma {:induction false} RootKeyIs()
    ensures RootKey() == "volumerootpath"
  {
    RootWords();
    KeyOfThree("volume_root_path", "volumerootpath", "volume", "root", "path");
  }

  lemma {:induction false} RetainWords()
    ensures "retain_data" == "retain" + "_" + "data" && "retaindata" == "retain" + "data" && IsPlain("retain") && IsPlain("data")
  {
  }

  lemma {:induction false} RetainKeyIs()
    ensures RetainKey() == "retaindata"
  {
    RetainWords();
    KeyOfTwo("retain_data", "retaindata", "retain", "data");
  }

  lemma {:induction false} NoDirWords()
    ensures "no_volume_dir" == "no" + "_" + "volume" + "_" + "dir" && "novolumedir" == "no" + "volume" + "dir"
    ensures IsPlain("no") && IsPlain("volume") && IsPlain("dir")
  {
  }

  lemma {:induction false} NoDirKeyIs()
    ensures NoDirKey() == "novolumedir"
  {
    NoDirWords();
    KeyOfThree("no_volume_dir", "novolumedir", "no", "volume", "dir");
  }

  lemma {:induction false} FlagIs(params: Params, key: string)
    ensures Flag(params, key) == Some(true) <==> SaysYes(params, key)
    ensures Flag(params, key) == Some(false) <==> SaysNo(params, key)
    ensures Flag(params, key) == None <==> IsUnclear(params, key)
    ensures !(SaysYes(params, key) && SaysNo(params, key))
  {
    assert TRUE_WORDS !! FALSE_WORDS;
  }

  lemma {:induction false} RootIs(v: string)
    requires v != "" && v[0] == '/'
    ensures RootOf(v) != "" <==> IsRootPath(v)
    ensures IsRootPath(v) ==> IsTrimmed(v, RootOf(v))
  {
  }

  // ---------- creating ----------

  /** The parameters describe a volume. */
  predicate Describes(params: Params) {
    && "volumerootpath" in params && IsRootPath(params["volumerootpath"])
    && !IsUnclear(params, "retaindata") && !IsUnclear(params, "novolumedir")
  }

  predicate AsksOtherClient(params: Params) {
    "client" in params && (SpellsLetters(params["client"], "webdav") || SpellsLetters(params["client"], "nfs"))
  }

  predicate IsRequest(r: Create) {
    r.name != "" && r.capabilitiesOk && !AsksOtherClient(r.configs) && Describes(r.configs)
  }

  /** What is recorded for the request: the root, the path below it or the root itself, and whether the
      data is to be kept. */
  predicate Fits(v: Volume, r: Create) {
    && "volumerootpath" in r.configs && v.name == r.name && IsTrimmed(r.configs["volumerootpath"], v.rootPath)
    && v.path == (if SaysYes(r.configs, "novolumedir") then v.rootPath else v.rootPath + "/" + r.name)
    && v.retainData == (SaysYes(r.configs, "retaindata") || SaysYes(r.configs, "novolumedir"))
  }

  lemma {:induction false} PlaceIs(name: string, c: ControllerConfig)
    ensures Place(name, c).Some? <==> c.rootPath != ""
    ensures Place(name, c).Some? ==>
              Place(name, c).value == ControllerConfig(c.rootPath, if c.notCreateVolumeDir then c.rootPath else c.rootPath + "/" + name,
                                                       c.retainData || c.notCreateVolumeDir, c.notCreateVolumeDir)
  {
  }

  lemma {:induction false} ConfigIs(id: string, r: Create)
    ensures MakeConfig(r.name, r.configs).Some? <==> Describes(r.configs)
    ensures Describes(r.configs) ==>
              var c := MakeConfig(r.name, r.configs).value;
              Fits(NewVolume(id, r.name, c), r) && c.notCreateVolumeDir == SaysYes(r.configs, "novolumedir")
  {
    RootKeyIs();
    RetainKeyIs();
    NoDirKeyIs();
    FlagIs(r.configs, RetainKey());
    FlagIs(r.configs, NoDirKey());
    if RootKey() in r.configs && Lexical.IsAbs(r.configs[RootKey()]) {
      RootIs(r.configs[RootKey()]);
    }
    if ReadConfig(r.configs).Some? {
      PlaceIs(r.name, ReadConfig(r.configs).value);
    }
  }

  lemma {:induction false} RequestIs(r: Create)
    ensures Supported(r) && MakeConfig(r.name, r.configs).Some? <==> IsRequest(r)
  {
    ConfigIs("", r);
    NodeServer.ClientTypeIff(r.configs);
  }

  predicate Welcome(env: Env) {
    env.connection.Connected? && !env.connection.anonymous
  }

  /** A request that says something wrong changes nothing. One that does not succeeds exactly if its
      connection is not anonymous and no call fails, and then the volume is recorded as it was asked for. */
  lemma {:induction false} CreateIs(s: State, r: Create, env: Env)
    ensures !IsRequest(r) || env.connection.NoConnection? ==> CreateSpec(s, r, env) == (s, InvalidArgument)
    ensures CreateSpec(s, r, env).1 == Done <==>
              IsRequest(r) && Welcome(env) && !env.putFails && (SaysYes(r.configs, "novolumedir") || !env.mkdirFails)
    ensures CreateSpec(s, r, env).1 == Done ==>
              exists v: Volume ::
                && v.id == env.id && Fits(v, r)
                && CreateSpec(s, r, env).0.volumes == s.volumes[env.id := v] && CreateSpec(s, r, env).0.file == env.putFile
                && CreateSpec(s, r, env).0.calls == s.calls + if SaysYes(r.configs, "novolumedir") then [] else [Mkdir(env.id, v.path)]
  {
    if IsRequest(r) {
      var c := RequestedConfig(s, r, env);
      ProvisionIs(s, r.name, c, env);
      var v := NewVolume(env.id, r.name, c);
      assert v.id == env.id && v.path == c.volumePath;
    } else {
      RequestIs(r);
    }
  }

  lemma {:induction false} RequestedConfig(s: State, r: Create, env: Env) returns (c: ControllerConfig)
    requires IsRequest(r)
    ensures Fits(NewVolume(env.id, r.name, c), r) && c.notCreateVolumeDir == SaysYes(r.configs, "novolumedir")
    ensures CreateSpec(s, r, env) == ProvisionSpec(s, r.name, c, env)
  {
    RequestIs(r);
    ConfigIs(env.id, r);
    c := MakeConfig(r.name, r.configs).value;
  }

  lemma {:induction false} ProvisionIs(s: State, name: string, c: ControllerConfig, env: Env)
    ensures var (s', reply) := ProvisionSpec(s, name, c, env);
            && (reply == Done <==> Welcome(env) && !env.putFails && (c.notCreateVolumeDir || !env.mkdirFails))
            && (reply == Done ==>
                  && s'.volumes == s.volumes[env.id := NewVolume(env.id, name, c)] && s'.file == env.putFile
                  && s'.calls == s.calls + if c.notCreateVolumeDir then [] else [Mkdir(env.id, c.volumePath)])
            && (reply != Done ==>
                  (s'.calls != s.calls <==>
                     && env.connection.Connected? && !c.notCreateVolumeDir && !env.mkdirFails
                     && (env.connection.anonymous || env.putFails)))
            && (env.connection == Connected(true) ==> s'.volumes == s.volumes)
  {
    assert s.calls + [] == s.calls;
  }

  /** A word other than those for yes and no, under either key, makes the request change nothing. */
  lemma {:induction false} UnclearIsRefused(s: State, r: Create, env: Env)
    requires IsUnclear(r.configs, "retaindata") || IsUnclear(r.configs, "novolumedir")
    ensures CreateSpec(s, r, env) == (s, InvalidArgument)
  {
    CreateIs(s, r, env);
  }

  /** A request that does not succeed has made a directory all the same exactly if one was asked for and
      could be made and then the user proved anonymous or saving failed; for an anonymous user it is not
      recorded. */
  lemma {:induction false} DirLeftIff(s: State, r: Create, env: Env)
    requires CreateSpec(s, r, env).1 != Done
    ensures CreateSpec(s, r, env).0.calls != s.calls <==>
              && IsRequest(r) && env.connection.Connected? && !SaysYes(r.configs, "novolumedir") && !env.mkdirFails
              && (env.connection.anonymous || env.putFails)
    ensures env.connection == Connected(true) ==> CreateSpec(s, r, env).0.volumes == s.volumes
  {
    CreateIs(s, r, env);
    if IsRequest(r) {
      var c := RequestedConfig(s, r, env);
      ProvisionIs(s, r.name, c, env);
    }
  }

  // ---------- from the request to the removal ----------

  /** Data that was asked to be kept, or that lies in no directory of its own, is never removed. */
  lemma {:induction false} KeptAsAsked(d: Setup, es: seq<Event>, i: nat, j: nat)
    requires Run(d, es) && i < |es| && es[i].CreateEvent?
    requires SaysYes(es[i].create.configs, "retaindata") || SaysYes(es[i].create.configs, "novolumedir")
    requires j < |After(d, es).calls| && After(d, es).calls[j].Rmdir?
    ensures After(d, es).calls[j].id != es[i].env.id
  {
    RemovalsKept(d, es);
    var v :| Asked(es, v) && !v.retainData && v.id == After(d, es).calls[j].id;
    var k :| 0 <= k < |es| && Asks(es[k], v);
    RequestIs(es[k].create);
    ConfigIs(es[k].env.id, es[k].create);
    assert k != i;
  }

  lemma {:induction false} StepKeepsRecord(d: Setup, s: State, e: Event, v: Volume)
    requires VolumeStore.Lawful(d.codec) && Durable(d, s) && Proper(d, s, e) && Get(s.volumes, v.id) == Some(v)
    requires !(e.DeleteEvent? && e.id == v.id) && !(e.CreateEvent? && e.env.id == v.id)
    ensures Get(Next(d, s, e).volumes, v.id) == Some(v)
  {
    StepKeepsDurable(d, s, e);
    if e.DeleteEvent? {
      DeleteEffect(s, e.id, e.env);
    } else if e.CreateEvent? {
      CreateEffect(s, e.create, e.env);
    }
  }

  lemma {:induction false} ShorterRun(d: Setup, es: seq<Event>, e: Event)
    requires Run(d, es + [e])
    ensures Run(d, es) && Proper(d, After(d, es), e) && After(d, es + [e]) == Next(d, After(d, es), e)
  {
    assert (es + [e])[..|es|] == es;
    FewerIds(es, e);
  }

  lemma {:induction false} NewId(es: seq<Event>, e: Event, i: nat)
    requires FreshIds(es + [e]) && i < |es| && es[i].CreateEvent? && e.CreateEvent?
    ensures e.env.id != es[i].env.id
  {
    assert (es + [e])[i] == es[i] && (es + [e])[|es|] == e;
  }

  lemma {:induction false} OneStays(d: Setup, es: seq<Event>, e: Event, i: nat, v: Volume)
    requires Run(d, es + [e]) && i < |es| && es[i].CreateEvent? && es[i].env.id == v.id && !(e.DeleteEvent? && e.id == v.id)
    ensures Run(d, es) && (Get(After(d, es).volumes, v.id) == Some(v) ==> Get(After(d, es + [e]).volumes, v.id) == Some(v))
  {
    ShorterRun(d, es, e);
    DurableKept(d, es);
    if e.CreateEvent? {
      NewId(es, e, i);
    }
    if Get(After(d, es).volumes, v.id) == Some(v) {
      StepKeepsRecord(d, After(d, es), e, v);
    }
  }

  /** What each of more events keeps, all of them keep. */
  lemma {:induction false} AllKeep(kept: seq<Event> -> bool, es: seq<Event>, more: seq<Event>)
    requires kept(es) && forall n | 0 <= n < |more| :: kept(es + more[..n]) ==> kept(es + more[..n] + [more[n]])
    ensures kept(es + more)
    decreases |more|
  {
    if more == [] {
      assert es + more == es;
    } else {
      var n := |more| - 1;
      forall m | 0 <= m < n
        ensures kept(es + more[..n][..m]) ==> kept(es + more[..n][..m] + [more[..n][m]])
      {
        assert more[..n][..m] == more[..m];
      }
      AllKeep(kept, es, more[..n]);
      assert es + more == es + more[..n] + [more[n]];
    }
  }

  /** The volume recorded at the end of some events stays through any more of them until it is deleted,
      restarts included. */
  lemma {:induction false} RecordStays(d: Setup, es: seq<Event>, more: seq<Event>, v: Volume)
    requires Run(d, es + more) && es != [] && es[|es| - 1].CreateEvent? && es[|es| - 1].env.id == v.id
    requires Get(After(d, es).volumes, v.id) == Some(v)
    requires forall i | 0 <= i < |more| :: !(more[i].DeleteEvent? && more[i].id == v.id)
    ensures Get(After(d, es + more).volumes, v.id) == Some(v)
  {
    var kept := (x: seq<Event>) => IfRun(d, x, v);
    forall n | 0 <= n < |more| && kept(es + more[..n])
      ensures kept(es + more[..n] + [more[n]])
    {
      KeptByOne(d, es + more[..n], more[n], |es| - 1, v);
    }
    AllKeep(kept, es, more);
  }

  ghost predicate IfRun(d: Setup, es: seq<Event>, v: Volume) {
    Run(d, es) ==> Get(After(d, es).volumes, v.id) == Some(v)
  }

  lemma {:induction false} KeptByOne(d: Setup, es: seq<Event>, e: Event, i: nat, v: Volume)
    requires i < |es| && es[i].CreateEvent? && es[i].env.id == v.id && !(e.DeleteEvent? && e.id == v.id)
    ensures IfRun(d, es, v) ==> IfRun(d, es + [e], v)
  {
    if Run(d, es + [e]) {
      OneStays(d, es, e, i, v);
    }
  }

  /** If neither key says yes, the first deletion of the volume whose save succeeds, whatever happened in
      between, removes the directory that was made for it. */
  lemma {:induction false} RemovedAsAsked(d: Setup, es: seq<Event>, c: Event, more: seq<Event>, e: Event)
    requires Run(d, es + [c] + more + [e]) && c.CreateEvent? && c.env.id != "" && CreateSpec(After(d, es), c.create, c.env).1 == Done
    requires SaysNo(c.create.configs, "retaindata") && SaysNo(c.create.configs, "novolumedir")
    requires forall i | 0 <= i < |more| :: !(more[i].DeleteEvent? && more[i].id == c.env.id)
    requires e.DeleteEvent? && e.id == c.env.id && !e.env.popFails
    ensures exists v: Volume ::
              && Fits(v, c.create) && !v.retainData && v.path == v.rootPath + "/" + c.create.name
              && Mkdir(e.id, v.path) in After(d, es + [c]).calls
              && After(d, es + [c] + more + [e]).calls == After(d, es + [c] + more).calls + [Rmdir(e.id, v.path)]
  {
    var v := Unretained(After(d, es), c.create, c.env);
    OneMore(d, es, c);
    ShorterRun(d, es + [c] + more, e);
    RecordStays(d, es + [c], more, v);
    DeleteRemoves(After(d, es + [c] + more), v, e.env);
  }

  lemma {:induction false} OneMore(d: Setup, es: seq<Event>, c: Event)
    ensures After(d, es + [c]) == Next(d, After(d, es), c)
  {
    assert (es + [c])[..|es|] == es;
  }

  lemma {:induction false} Unretained(s: State, r: Create, env: Env) returns (v: Volume)
    requires CreateSpec(s, r, env).1 == Done && SaysNo(r.configs, "retaindata") && SaysNo(r.configs, "novolumedir")
    ensures var s' := CreateSpec(s, r, env).0;
            && Get(s'.volumes, env.id) == Some(v) && v.id == env.id && Fits(v, r) && !v.retainData
            && v.path == v.rootPath + "/" + r.name && Mkdir(env.id, v.path) in s'.calls
  {
    FlagIs(r.configs, "retaindata");
    FlagIs(r.configs, "novolumedir");
    CreateIs(s, r, env);
    v :| v.id == env.id && Fits(v, r) && CreateSpec(s, r, env).0.volumes == s.volumes[env.id := v]
         && CreateSpec(s, r, env).0.calls == s.calls + [Mkdir(env.id, v.path)];
    LastCall(s.calls, Mkdir(env.id, v.path));
  }

  lemma {:induction false} LastCall(calls: seq<DirCall>, call: DirCall)
    ensures call in calls + [call]
  {
    assert (calls + [call])[|calls|] == call;
  }

  lemma {:induction false} DeleteRemoves(s: State, v: Volume, env: Env)
    requires Get(s.volumes, v.id) == Some(v) && v.id != "" && !v.retainData && !env.popFails
    ensures DeleteSpec(s, v.id, env).0.calls == s.calls + [Rmdir(v.id, v.path)]
  {
  }

  /** A deletion that fails drops the record, and so its retry says done without removing anything:
      after both the directory is gone exactly if the first one saved, and removed it in spite of any
      failure. */
  lemma {:induction false} RetryRemovesIff(s: State, id: string, env: Env, env': Env)
    requires id != "" && id in s.volumes && !s.volumes[id].retainData && Names(s.volumes[id].path) in s.dirs
    ensures var tried := DeleteSpec(s, id, env).0;
            && DeleteSpec(tried, id, env') == (tried, Done)
            && (Names(s.volumes[id].path) !in tried.dirs <==>
                  !env.popFails && (env.rmdirFails ==> Names(s.volumes[id].path) !in env.left))
  {
  }
}
