/** The node service: stage, publish, unpublish and unstage, over the volume records, the mount
    table and the gauge of active mounts. */
module NodeServer {
  import opened Text
  import opened Trees
  import opened VolumeStore

  type Config = map<string, string>

  datatype ClientType = IrodsFuse | Webdav | Nfs

  datatype NodeVolume = NodeVolume(
    stagingMountPath: string,
    mountPath: string,
    stagingMountOptions: seq<string>,
    mountOptions: seq<string>,
    clientType: string,
    clientConfig: Config,
    isDynamic: bool,
    isStaged: bool)

  /** Anything unknown is taken for irodsfuse. */
  function ValidClientType(s: string): ClientType {
    if ToLower(s) == "webdav" then Webdav else if ToLower(s) == "nfs" then Nfs else IrodsFuse
  }

  function TypeName(t: ClientType): string {
    match t case IrodsFuse => "irodsfuse" case Webdav => "webdav" case Nfs => "nfs"
  }

  function ClientTypeOf(c: Config): ClientType {
    ValidClientType(if "client" in c then c["client"] else "")
  }

  /** Only "webdav" and "nfs", in any letter case, ask for another client than that of iRODS, and so a
      configuration without the key does not. */
  lemma {:induction false} ClientTypeIff(c: Config)
    ensures ClientTypeOf(c) == Webdav <==> "client" in c && SpellsLetters(c["client"], "webdav")
    ensures ClientTypeOf(c) == Nfs <==> "client" in c && SpellsLetters(c["client"], "nfs")
  {
    var s := if "client" in c then c["client"] else "";
    LettersIff(s, "webdav");
    LettersIff(s, "nfs");
    assert "webdav" != "" && "nfs" != "" && |"webdav"| != |"nfs"|;
  }

  /** A call of MountClient that succeeded, a call of UnmountClient, and such a call that went through:
      the client is unmounted, has cleaned up, and writes back what there is to write back. */
  datatype ClientCall =
    | Mounted(volume: string, clientType: ClientType, config: Config)
    | Unmounting(volume: string, clientType: ClientType, config: Config)
    | CleanedUp(volume: string)

  /** The records and the file they are saved in; mounts says for each path the driver holds mounted
      which volume it is for. */
  datatype State = State(
    records: map<string, NodeVolume>,
    file: Option<Bytes>,
    mounts: map<string, string>,
    gauge: int,
    calls: seq<ClientCall>)

  datatype MountResult = MountDone | MountFails(leftover: bool)

  /** An unmount can fail with the path gone: the layer below it was the one that failed. */
  datatype UnmountResult = UnmountDone | UnmountFails(gone: bool)

  /** How the calls that leave the driver end during one request; popFile and putFile are what saving
      leaves in the file. */
  datatype Env = Env(
    accessFails: bool,
    probeFails: bool,
    mount: MountResult,
    unmount: UnmountResult,
    removeFails: bool,
    popFails: bool,
    popFile: Option<Bytes>,
    putFails: bool,
    putFile: Option<Bytes>)

  datatype Reply = Done | InvalidArgument | Internal | SaveFailed

  datatype Stage = Stage(volume: string, isDynamic: bool, path: string, validCapability: bool, options: seq<string>, config: Config)

  datatype Publish = Publish(volume: string, isDynamic: bool, stagingPath: string, path: string, validCapability: bool,
                             options: seq<string>, config: Config)

  datatype Unpublish = Unpublish(volume: string, path: string)

  datatype Unstage = Unstage(volume: string, path: string)

  // ---------- what each request does ----------

  /** The table in memory changes also when saving it fails. */
  function PutSpec(s: State, env: Env, volume: string, v: NodeVolume): State {
    s.(records := s.records[volume := v], file := env.putFile)
  }

  function DropSpec(s: State, env: Env, volume: string): State {
    if volume in s.records then s.(records := s.records - {volume}, file := env.popFile) else s
  }

  /** MountClient: accepts says whether the client can be mounted with a configuration at all. */
  function MountClientSpec(accepts: Config -> bool, s: State, env: Env, volume: string, config: Config, path: string): (State, bool) {
    if !accepts(config) then (s, false)
    else if env.mount.MountDone? then
      (s.(mounts := s.mounts[path := volume], gauge := s.gauge + 1,
          calls := s.calls + [Mounted(volume, ClientTypeOf(config), config)]), true)
    else if env.mount.leftover then (s.(mounts := s.mounts[path := volume]), false)
    else (s, false)
  }

  function UnmountSpec(s: State, env: Env, path: string): (State, bool) {
    match env.unmount
    case UnmountDone => (s.(mounts := s.mounts - {path}, gauge := s.gauge - 1), true)
    case UnmountFails(gone) => (if gone then s.(mounts := s.mounts - {path}) else s, false)
  }

  function UnmountClientSpec(accepts: Config -> bool, s: State, env: Env, volume: string, t: ClientType, config: Config, path: string): (State, bool) {
    var s := s.(calls := s.calls + [Unmounting(volume, t, config)]);
    if !accepts(config) then (s, false)
    else
      var (s, ok) := UnmountSpec(s, env, path);
      (if ok then s.(calls := s.calls + [CleanedUp(volume)]) else s, ok)
  }

  function StageSpec(accepts: Config -> bool, s: State, r: Stage, env: Env): (State, Reply) {
    if r.volume == "" then (s, InvalidArgument)
    else if !r.isDynamic then
      (PutSpec(s, env, r.volume, NodeVolume("", "", [], [], "", map[], false, true)),
       if env.putFails then SaveFailed else Done)
    else if r.path == "" || !r.validCapability then (s, InvalidArgument)
    else if env.accessFails || env.probeFails || r.path in s.mounts then (s, Internal)
    else
      var (s, ok) := MountClientSpec(accepts, s, env, r.volume, r.config, r.path);
      if !ok then (s, Internal)
      else
        var v := NodeVolume(r.path, "", r.options, [], TypeName(ClientTypeOf(r.config)), r.config, true, true);
        (PutSpec(s, env, r.volume, v), if env.putFails then SaveFailed else Done)
  }

  function PublishSpec(accepts: Config -> bool, s: State, r: Publish, env: Env): (State, Reply) {
    if r.volume == "" || r.path == "" || !r.validCapability then (s, InvalidArgument)
    else if env.accessFails || env.probeFails || r.path in s.mounts then (s, Internal)
    else if r.isDynamic then
      if r.stagingPath == "" then (s, InvalidArgument)
      else if env.mount.MountFails? then
        (if env.mount.leftover then s.(mounts := s.mounts[r.path := r.volume]) else s, Internal)
      else
        var s := s.(mounts := s.mounts[r.path := r.volume]);
        if r.volume !in s.records then (s, InvalidArgument)
        else if env.popFails then (DropSpec(s, env, r.volume), SaveFailed)
        else
          var v := s.records[r.volume].(mountPath := r.path, mountOptions := r.options);
          var s := PutSpec(s, env, r.volume, v);
          if env.putFails then (s, SaveFailed) else (s.(gauge := s.gauge + 1), Done)
    else
      var (s, ok) := MountClientSpec(accepts, s, env, r.volume, r.config, r.path);
      if !ok then (s, Internal)
      else if r.volume in s.records && env.popFails then (DropSpec(s, env, r.volume), SaveFailed)
      else
        var t := TypeName(ClientTypeOf(r.config));
        var v :=
          if r.volume in s.records then
            s.records[r.volume].(mountPath := r.path, mountOptions := r.options, clientType := t, clientConfig := r.config)
          else NodeVolume("", r.path, [], r.options, t, r.config, false, false);
        (PutSpec(s, env, r.volume, v), if env.putFails then SaveFailed else Done)
  }

  function UnpublishSpec(accepts: Config -> bool, s: State, r: Unpublish, env: Env): (State, Reply) {
    if r.volume == "" then (s, InvalidArgument)
    else
      var v := Get(s.records, r.volume);
      var pops := v.Some? && !v.value.isStaged;
      var s := if pops then DropSpec(s, env, r.volume) else s;
      if pops && env.popFails then (s, SaveFailed)
      else if r.path == "" then (s, InvalidArgument)
      else if env.probeFails then (s, Internal)
      else if r.path !in s.mounts then (s, Done)
      else
        var (s, ok) :=
          if v.None? || v.value.isDynamic then UnmountSpec(s, env, r.path)
          else UnmountClientSpec(accepts, s, env, r.volume, ValidClientType(v.value.clientType), v.value.clientConfig, r.path);
        (s, if !ok || env.removeFails then Internal else Done)
  }

  function UnstageSpec(accepts: Config -> bool, s: State, r: Unstage, env: Env): (State, Reply) {
    if r.volume == "" then (s, InvalidArgument)
    else
      var v := Get(s.records, r.volume);
      var s := DropSpec(s, env, r.volume);
      if v.Some? && env.popFails then (s, SaveFailed)
      else if v.Some? && !v.value.isDynamic then (s, Done)
      else if r.path == "" then (s, InvalidArgument)
      else if env.probeFails then (s, Internal)
      else if r.path !in s.mounts then (s, Done)
      else
        var (s, ok) :=
          if v.None? then UnmountSpec(s, env, r.path)
          else UnmountClientSpec(accepts, s, env, r.volume, ValidClientType(v.value.clientType), v.value.clientConfig, r.path);
        (s, if ok then Done else Internal)
  }

  // ---------- the service ----------

  class Driver {
    const accepts: Config -> bool
    var records: map<string, NodeVolume>
    var file: Option<Bytes>
    var mounts: map<string, string>
    var activeMounts: int
    ghost var calls: seq<ClientCall>

    ghost function Now(): State
      reads this
    {
      State(records, file, mounts, activeMounts, calls)
    }

    /** A start: the records come from the file, and the gauge starts from zero. */
    constructor (accepts: Config -> bool, codec: Codec<NodeVolume>, key: Bytes, file: Option<Bytes>, mounts: map<string, string>)
      requires Load(codec, key, file).Returned?
      ensures this.accepts == accepts && Now() == State(Load(codec, key, file).volumes, file, mounts, 0, [])
    {
      this.accepts, this.file, this.mounts, activeMounts, calls := accepts, file, mounts, 0, [];
      records := Load(codec, key, file).volumes;
    }

    method Put(volume: string, v: NodeVolume, env: Env) returns (ok: bool)
      modifies this
      ensures Now() == PutSpec(old(Now()), env, volume, v) && ok == !env.putFails
    {
      records, file := records[volume := v], env.putFile;
      ok := !env.putFails;
    }

    /** The record is dropped from memory also when saving fails. */
    method Pop(volume: string, env: Env) returns (v: Option<NodeVolume>, ok: bool)
      modifies this
      ensures v == Get(old(records), volume) && (ok <==> v.None? || !env.popFails)
      ensures Now() == DropSpec(old(Now()), env, volume)
    {
      v, ok := None, true;
      if volume in records {
        v := Some(records[volume]);
        records, file := records - {volume}, env.popFile;
        ok := !env.popFails;
      }
    }

    method MountClient(volume: string, config: Config, path: string, env: Env) returns (ok: bool)
      modifies this
      ensures (Now(), ok) == MountClientSpec(accepts, old(Now()), env, volume, config, path)
    {
      if !accepts(config) {
        return false;
      }
      if env.mount.MountDone? {
        mounts := mounts[path := volume];
        activeMounts := activeMounts + 1;
        calls := calls + [Mounted(volume, ClientTypeOf(config), config)];
        return true;
      }
      if env.mount.leftover {
        mounts := mounts[path := volume];
      }
      return false;
    }

    method Unmount(path: string, env: Env) returns (ok: bool)
      modifies this
      ensures (Now(), ok) == UnmountSpec(old(Now()), env, path)
    {
      if env.unmount.UnmountDone? || env.unmount.gone {
        mounts := mounts - {path};
      }
      ok := env.unmount.UnmountDone?;
      if ok {
        activeMounts := activeMounts - 1;
      }
    }

    method UnmountClient(volume: string, t: ClientType, config: Config, path: string, env: Env) returns (ok: bool)
      modifies this
      ensures (Now(), ok) == UnmountClientSpec(accepts, old(Now()), env, volume, t, config, path)
    {
      calls := calls + [Unmounting(volume, t, config)];
      if !accepts(config) {
        return false;
      }
      ok := Unmount(path, env);
      if ok {
        calls := calls + [CleanedUp(volume)];
      }
    }

    method NodeStageVolume(r: Stage, env: Env) returns (reply: Reply)
      modifies this
      ensures (Now(), reply) == StageSpec(accepts, old(Now()), r, env)
    {
      if r.volume == "" {
        return InvalidArgument;
      }
      if !r.isDynamic {
        var ok := Put(r.volume, NodeVolume("", "", [], [], "", map[], false, true), env);
        return if ok then Done else SaveFailed;
      }
      if r.path == "" {
        return InvalidArgument;
      }
      if !r.validCapability {
        return InvalidArgument;
      }
      if env.accessFails {
        return Internal;
      }
      if env.probeFails || r.path in mounts {
        return Internal;
      }
      var ok := MountClient(r.volume, r.config, r.path, env);
      if !ok {
        return Internal;
      }
      ok := Put(r.volume, NodeVolume(r.path, "", r.options, [], TypeName(ClientTypeOf(r.config)), r.config, true, true), env);
      return if ok then Done else SaveFailed;
    }

    method NodePublishVolume(r: Publish, env: Env) returns (reply: Reply)
      modifies this
      ensures (Now(), reply) == PublishSpec(accepts, old(Now()), r, env)
    {
      if r.volume == "" || r.path == "" || !r.validCapability {
        return InvalidArgument;
      }
      if env.accessFails || env.probeFails || r.path in mounts {
        return Internal;
      }
      if r.isDynamic {
        if r.stagingPath == "" {
          return InvalidArgument;
        }
        if env.mount.MountFails? {
          if env.mount.leftover {
            mounts := mounts[r.path := r.volume];
          }
          return Internal;
        }
        mounts := mounts[r.path := r.volume];
        ghost var before := records;
        var v, ok := Pop(r.volume, env);
        if !ok {
          return SaveFailed;
        }
        if v.None? {
          assert records == before;
          return InvalidArgument;
        }
        ok := Put(r.volume, v.value.(mountPath := r.path, mountOptions := r.options), env);
        assert (before - {r.volume})[r.volume := records[r.volume]] == before[r.volume := records[r.volume]];
        if !ok {
          return SaveFailed;
        }
        activeMounts := activeMounts + 1;
        return Done;
      }
      var ok := MountClient(r.volume, r.config, r.path, env);
      if !ok {
        return Internal;
      }
      ghost var before := records;
      var v;
      v, ok := Pop(r.volume, env);
      if !ok {
        return SaveFailed;
      }
      var t := TypeName(ClientTypeOf(r.config));
      if v.None? {
        v := Some(NodeVolume("", r.path, [], r.options, t, r.config, false, false));
      } else {
        v := Some(v.value.(mountPath := r.path, mountOptions := r.options, clientType := t, clientConfig := r.config));
      }
      ok := Put(r.volume, v.value, env);
      assert (before - {r.volume})[r.volume := v.value] == before[r.volume := v.value];
      return if ok then Done else SaveFailed;
    }

    method NodeUnpublishVolume(r: Unpublish, env: Env) returns (reply: Reply)
      modifies this
      ensures (Now(), reply) == UnpublishSpec(accepts, old(Now()), r, env)
    {
      if r.volume == "" {
        return InvalidArgument;
      }
      var v := Get(records, r.volume);
      if v.Some? && !v.value.isStaged {
        var _, ok := Pop(r.volume, env);
        if !ok {
          return SaveFailed;
        }
      }
      if r.path == "" {
        return InvalidArgument;
      }
      if env.probeFails {
        return Internal;
      }
      if r.path !in mounts {
        return Done;
      }
      var ok;
      if v.None? || v.value.isDynamic {
        ok := Unmount(r.path, env);
      } else {
        ok := UnmountClient(r.volume, ValidClientType(v.value.clientType), v.value.clientConfig, r.path, env);
      }
      if !ok || env.removeFails {
        return Internal;
      }
      return Done;
    }

    method NodeUnstageVolume(r: Unstage, env: Env) returns (reply: Reply)
      modifies this
      ensures (Now(), reply) == UnstageSpec(accepts, old(Now()), r, env)
    {
      if r.volume == "" {
        return InvalidArgument;
      }
      var v := Get(records, r.volume);
      if v.Some? {
        var _, ok := Pop(r.volume, env);
        if !ok {
          return SaveFailed;
        }
        if !v.value.isDynamic {
          return Done;
        }
      }
      if r.path == "" {
        return InvalidArgument;
      }
      if env.probeFails {
        return Internal;
      }
      if r.path !in mounts {
        return Done;
      }
      var ok;
      if v.None? {
        ok := Unmount(r.path, env);
      } else {
        ok := UnmountClient(r.volume, ValidClientType(v.value.clientType), v.value.clientConfig, r.path, env);
      }
      return if ok then Done else Internal;
    }
  }
}
