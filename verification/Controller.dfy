/** The controller service: creating and deleting volumes. */
module Controller {
  import opened ConfigMerge
  import opened Lexical
  import opened Text
  import opened Trees
  import opened VolumeStore
  import NodeServer

  datatype ControllerConfig = ControllerConfig(rootPath: string, volumePath: string, retainData: bool, notCreateVolumeDir: bool)

  // ---------- its configuration ----------

  const TRUE_WORDS: set<string> := {"1", "t", "T", "TRUE", "true", "True"}
  const FALSE_WORDS: set<string> := {"0", "f", "F", "FALSE", "false", "False"}

  /** strconv.ParseBool */
  function ParseBool(s: string): Option<bool> {
    if s in TRUE_WORDS then Some(true) else if s in FALSE_WORDS then Some(false) else None
  }

  function RootKey(): string { Normalize("volume_root_path") }

  function RetainKey(): string { Normalize("retain_data") }

  function NoDirKey(): string { Normalize("no_volume_dir") }

  function RootOf(v: string): string {
    if v == "/" then v else TrimSlashes(v)
  }

  function Flag(params: Params, key: string): Option<bool> {
    if key in params then ParseBool(params[key]) else Some(false)
  }

  function ReadKeys(params: Params, rootKey: string, retainKey: string, noDirKey: string): Option<ControllerConfig> {
    var retain, noDir := Flag(params, retainKey), Flag(params, noDirKey);
    if (rootKey in params && !IsAbs(params[rootKey])) || retain.None? || noDir.None? then None
    else Some(ControllerConfig(if rootKey in params then RootOf(params[rootKey]) else "", "", retain.value, noDir.value))
  }

  /** What the parameters say, whatever order they are read in; nothing if one of them is malformed. */
  function ReadConfig(params: Params): Option<ControllerConfig> {
    ReadKeys(params, RootKey(), RetainKey(), NoDirKey())
  }

  lemma {:induction false} KeyStarts()
    ensures RootKey() != "" && RootKey()[0] == 'v'
    ensures RetainKey() != "" && RetainKey()[0] == 'r'
    ensures NoDirKey() != "" && NoDirKey()[0] == 'n'
  {
    StartKept("volume_root_path");
    StartKept("retain_data");
    StartKept("no_volume_dir");
  }

  lemma {:induction false} DriverKey()
    ensures Normalize("driver") == "client"
  {
    LowerKept("driver");
  }

  /** Keys as merging leaves them. */
  predicate Canonical(params: Params) {
    forall k | k in params :: k == "driver" || Normalize(k) == k
  }

  /** A canonical key normalises to one of the three keys only if it is that key. */
  lemma {:induction false} OnlyCanonical(k: string, key: string)
    requires k == "driver" || Normalize(k) == k
    requires key == RootKey() || key == RetainKey() || key == NoDirKey()
    ensures Normalize(k) == key <==> k == key
  {
    KeyStarts();
    if k == "driver" {
      DriverKey();
      assert k[0] == 'd' && Normalize(k)[0] == 'c';
    }
  }

  /** What the flag says if only the keys seen so far are there. */
  predicate FlagSeen(params: Params, seen: set<string>, key: string, b: bool)
    requires seen <= params.Keys
  {
    if key in seen then ParseBool(params[key]) == Some(b) else !b
  }

  predicate OnlyFor(params: Params, key: string) {
    forall k | k in params :: Normalize(k) == key <==> k == key
  }

  lemma {:induction false} CanonicalOnlyFor(params: Params, key: string)
    requires Canonical(params) && (key == RootKey() || key == RetainKey() || key == NoDirKey())
    ensures OnlyFor(params, key)
  {
    forall k | k in params
      ensures Normalize(k) == key <==> k == key
    {
      OnlyCanonical(k, key);
    }
  }

  method ReadParams(params: Params, rootKey: string, retainKey: string, noDirKey: string) returns (config: Option<ControllerConfig>)
    requires rootKey != retainKey && rootKey != noDirKey && retainKey != noDirKey
    requires OnlyFor(params, rootKey) && OnlyFor(params, retainKey) && OnlyFor(params, noDirKey)
    ensures config == ReadKeys(params, rootKey, retainKey, noDirKey)
  {
    var root, retain, noDir := "", false, false;
    var rest := params.Keys;
    ghost var seen: set<string> := {};
    while rest != {}
      invariant rest <= params.Keys && seen == params.Keys - rest
      invariant if rootKey in seen then IsAbs(params[rootKey]) && root == RootOf(params[rootKey]) else root == ""
      invariant FlagSeen(params, seen, retainKey, retain) && FlagSeen(params, seen, noDirKey, noDir)
    {
      var k :| k in rest;
      rest, seen := rest - {k}, seen + {k};
      var n := Normalize(k);
      if n == rootKey {
        if !IsAbs(params[k]) {
          return None;
        }
        root := RootOf(params[k]);
      } else if n == retainKey {
        var b := ParseBool(params[k]);
        if b.None? {
          return None;
        }
        retain := b.value;
      } else if n == noDirKey {
        var b := ParseBool(params[k]);
        if b.None? {
          return None;
        }
        noDir := b.value;
      }
    }
    return Some(ControllerConfig(root, "", retain, noDir));
  }

  method GetControllerConfigFromMap(params: Params) returns (config: Option<ControllerConfig>)
    requires Canonical(params)
    ensures config == ReadConfig(params)
  {
    KeyStarts();
    CanonicalOnlyFor(params, RootKey());
    CanonicalOnlyFor(params, RetainKey());
    CanonicalOnlyFor(params, NoDirKey());
    config := ReadParams(params, RootKey(), RetainKey(), NoDirKey());
  }

  /** Without a directory of its own, a volume keeps its data when it is deleted. */
  function Place(name: string, c: ControllerConfig): Option<ControllerConfig> {
    if c.rootPath == "" then None
    else if c.notCreateVolumeDir then Some(c.(volumePath := c.rootPath, retainData := true))
    else Some(c.(volumePath := c.rootPath + "/" + name))
  }

  function MakeConfig(name: string, params: Params): Option<ControllerConfig> {
    var c := ReadConfig(params);
    if c.None? then None else Place(name, c.value)
  }

  method MakeControllerConfig(name: string, params: Params) returns (config: Option<ControllerConfig>)
    requires Canonical(params)
    ensures config == MakeConfig(name, params)
  {
    config := GetControllerConfigFromMap(params);
    if config.Some? {
      config := Place(name, config.value);
    }
  }

  // ---------- the service ----------

  datatype Volume = Volume(id: string, name: string, rootPath: string, path: string, retainData: bool)

  /** Calls that change the iRODS tree, with the volume they are made for. */
  datatype DirCall = Mkdir(id: string, path: string) | Rmdir(id: string, path: string)

  /** The volumes and the file they are saved in, which is stale if the last save failed; dirs holds
      the collections that exist, as the names that lead to them from the root. */
  datatype State = State(volumes: map<string, Volume>, file: Option<Bytes>, stale: bool, dirs: set<seq<string>>, calls: seq<DirCall>)

  /** How the calls that leave the driver end; connection says whether the parameters describe a
      connection, and whether its user is anonymous. What a failing call leaves half done is arbitrary; popFile and putFile are what saving leaves in
      the file. */
  datatype Connection = NoConnection | Connected(anonymous: bool)

  datatype Env = Env(id: string, connection: Connection, mkdirFails: bool, rmdirFails: bool, left: set<seq<string>>,
                     putFails: bool, putFile: Option<Bytes>, popFails: bool, popFile: Option<Bytes>)

  datatype Reply = Done | InvalidArgument | Internal | SaveFailed

  datatype Create = Create(name: string, capabilitiesOk: bool, configs: Params)

  function Names(path: string): seq<string> {
    Parts(path).names
  }

  function Upwards(names: seq<string>): set<seq<string>> {
    set n | 0 <= n <= |names| :: names[..n]
  }

  function MkdirSpec(s: State, id: string, path: string): State {
    s.(dirs := s.dirs + Upwards(Names(path)), calls := s.calls + [Mkdir(id, path)])
  }

  function RmdirSpec(s: State, env: Env, id: string, path: string): State {
    s.(dirs := (set d | d in s.dirs && (!(Names(path) <= d) || (env.rmdirFails && d in env.left))),
       calls := s.calls + [Rmdir(id, path)])
  }

  function NewVolume(id: string, name: string, c: ControllerConfig): Volume {
    Volume(id, name, c.rootPath, c.volumePath, c.retainData)
  }

  /** What is done once the configuration is known. */
  function ProvisionSpec(s: State, name: string, c: ControllerConfig, env: Env): (State, Reply) {
    if env.connection.NoConnection? then (s, InvalidArgument)
    else if !c.notCreateVolumeDir && env.mkdirFails then
      (s.(dirs := s.dirs + Upwards(Names(c.volumePath)) * env.left), Internal)
    else
      var s := if c.notCreateVolumeDir then s else MkdirSpec(s, env.id, c.volumePath);
      if env.connection.anonymous then (s, InvalidArgument)
      else
        (s.(volumes := s.volumes[env.id := NewVolume(env.id, name, c)], file := env.putFile, stale := env.putFails),
         if env.putFails then SaveFailed else Done)
  }

  predicate Supported(r: Create) {
    r.name != "" && r.capabilitiesOk && NodeServer.ClientTypeOf(r.configs) == NodeServer.IrodsFuse
  }

  function CreateSpec(s: State, r: Create, env: Env): (State, Reply) {
    var c := if Supported(r) then MakeConfig(r.name, r.configs) else None;
    if c.None? then (s, InvalidArgument) else ProvisionSpec(s, r.name, c.value, env)
  }

  function DeleteSpec(s: State, id: string, env: Env): (State, Reply) {
    if id == "" then (s, InvalidArgument)
    else if id !in s.volumes then (s, Done)
    else
      var v := s.volumes[id];
      var s := s.(volumes := s.volumes - {id}, file := env.popFile, stale := env.popFails);
      if env.popFails then (s, SaveFailed)
      else if v.retainData then (s, Done)
      else (RmdirSpec(s, env, id, v.path), if env.rmdirFails then Internal else Done)
  }

  class Service {
    var volumes: map<string, Volume>
    var file: Option<Bytes>
    ghost var stale: bool
    ghost var dirs: set<seq<string>>
    ghost var calls: seq<DirCall>

    ghost function Now(): State
      reads this
    {
      State(volumes, file, stale, dirs, calls)
    }

    /** A start: the volumes come from the file. */
    constructor (codec: Codec<Volume>, key: Bytes, file: Option<Bytes>, ghost dirs: set<seq<string>>)
      requires Load(codec, key, file).Returned?
      ensures Now() == State(Load(codec, key, file).volumes, file, false, dirs, [])
    {
      volumes := Load(codec, key, file).volumes;
      this.file, this.dirs, stale, calls := file, dirs, false, [];
    }

    method MakeDir(id: string, path: string, env: Env) returns (ok: bool)
      modifies this
      ensures ok == !env.mkdirFails
      ensures Now() == if ok then MkdirSpec(old(Now()), id, path) else old(Now()).(dirs := old(dirs) + Upwards(Names(path)) * env.left)
    {
      ok := !env.mkdirFails;
      if ok {
        dirs := dirs + Upwards(Names(path));
        calls := calls + [Mkdir(id, path)];
      } else {
        dirs := dirs + Upwards(Names(path)) * env.left;
      }
    }

    method RemoveDir(id: string, path: string, env: Env) returns (ok: bool)
      modifies this
      ensures ok == !env.rmdirFails && Now() == RmdirSpec(old(Now()), env, id, path)
    {
      dirs := set d | d in dirs && (!(Names(path) <= d) || (env.rmdirFails && d in env.left));
      calls := calls + [Rmdir(id, path)];
      ok := !env.rmdirFails;
    }

    method Provision(name: string, config: ControllerConfig, env: Env) returns (reply: Reply)
      modifies this
      ensures (Now(), reply) == ProvisionSpec(old(Now()), name, config, env)
    {
      if env.connection.NoConnection? {
        return InvalidArgument;
      }
      if !config.notCreateVolumeDir {
        var ok := MakeDir(env.id, config.volumePath, env);
        if !ok {
          return Internal;
        }
      }
      if env.connection.anonymous {
        return InvalidArgument;
      }
      volumes := volumes[env.id := Volume(env.id, name, config.rootPath, config.volumePath, config.retainData)];
      file, stale := env.putFile, env.putFails;
      return if env.putFails then SaveFailed else Done;
    }

    method CreateVolume(r: Create, env: Env) returns (reply: Reply)
      requires Canonical(r.configs)
      modifies this
      ensures (Now(), reply) == CreateSpec(old(Now()), r, env)
    {
      if |r.name| == 0 {
        return InvalidArgument;
      }
      if !r.capabilitiesOk {
        return InvalidArgument;
      }
      var clientType := NodeServer.ClientTypeOf(r.configs);
      if clientType != NodeServer.IrodsFuse {
        return InvalidArgument;
      }
      var config := MakeControllerConfig(r.name, r.configs);
      if config.None? {
        return InvalidArgument;
      }
      reply := Provision(r.name, config.value, env);
    }

    method DeleteVolume(id: string, env: Env) returns (reply: Reply)
      modifies this
      ensures (Now(), reply) == DeleteSpec(old(Now()), id, env)
    {
      if |id| == 0 {
        return InvalidArgument;
      }
      if id !in volumes {
        return Done;
      }
      var v := volumes[id];
      volumes := volumes - {id};
      file, stale := env.popFile, env.popFails;
      if env.popFails {
        return SaveFailed;
      }
      if !v.retainData {
        var ok := RemoveDir(id, v.path, env);
        if !ok {
          return Internal;
        }
      }
      return Done;
    }
  }
}
