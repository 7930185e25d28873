/** What holds of every run of the node service. */
module NodeRuns {
  import opened NodeServer
  import opened Text
  import opened Trees
  import VolumeStore

  datatype Event =
    | StageEvent(stage: Stage, env: Env)
    | PublishEvent(publish: Publish, env: Env)
    | UnpublishEvent(unpublish: Unpublish, env: Env)
    | UnstageEvent(unstage: Unstage, env: Env)
    | RestartEvent

  /** What stays the same over a run: which configurations the clients can be mounted with, and how
      the records are saved. */
  datatype Setup = Setup(accepts: Config -> bool, codec: VolumeStore.Codec<NodeVolume>, key: VolumeStore.Bytes)

  function Reload(d: Setup, file: Option<VolumeStore.Bytes>): map<string, NodeVolume> {
    match VolumeStore.Load(d.codec, d.key, file)
    case Returned(_, m) => m
    case Crashed => map[]
  }

  /** A restart takes the records from the file and keeps the mounts; the gauge starts from zero. */
  function Next(d: Setup, s: State, e: Event): State {
    match e
    case StageEvent(r, env) => StageSpec(d.accepts, s, r, env).0
    case PublishEvent(r, env) => PublishSpec(d.accepts, s, r, env).0
    case UnpublishEvent(r, env) => UnpublishSpec(d.accepts, s, r, env).0
    case UnstageEvent(r, env) => UnstageSpec(d.accepts, s, r, env).0
    case RestartEvent => s.(records := Reload(d, s.file), gauge := 0)
  }

  /** The part of the CSI volume lifecycle the driver relies on: a static volume is not staged again
      while it is mounted, a dynamic volume is published only when staged, and a volume is
      unpublished from its own paths. */
  predicate InOrder(s: State, e: Event) {
    match e
    case StageEvent(r, _) => !r.isDynamic ==> r.volume !in s.mounts.Values
    case PublishEvent(r, _) => r.isDynamic ==> r.volume in s.records && s.records[r.volume].isDynamic
    case UnpublishEvent(r, _) => r.path in s.mounts ==> s.mounts[r.path] == r.volume
    case _ => true
  }

  predicate SavesSucceed(env: Env) {
    !env.popFails && !env.putFails
  }

  /** A failed mount leaves nothing mounted. */
  predicate NoLeftover(env: Env) {
    env.mount.MountFails? ==> !env.mount.leftover
  }

  /** A failed unmount leaves the path mounted. */
  predicate NoHalfUnmount(env: Env) {
    env.unmount.UnmountFails? ==> !env.unmount.gone
  }

  predicate EnvOk(e: Event, p: Env -> bool) {
    e.RestartEvent? || p(e.env)
  }

  function VolumeOf(e: Event): string
    requires !e.RestartEvent?
  {
    match e
    case StageEvent(r, _) => r.volume
    case PublishEvent(r, _) => r.volume
    case UnpublishEvent(r, _) => r.volume
    case UnstageEvent(r, _) => r.volume
  }

  /** What saving leaves in the file is the table that was to be saved. */
  ghost predicate FilesWritten(d: Setup, s: State, e: Event) {
    !e.RestartEvent? ==>
      && VolumeStore.Saved(d.codec, d.key, e.env.popFile, s.records - {VolumeOf(e)})
      && VolumeStore.Saved(d.codec, d.key, e.env.putFile, Next(d, s, e).records)
  }

  ghost predicate Proper(d: Setup, s: State, e: Event) {
    InOrder(s, e) && EnvOk(e, SavesSucceed) && EnvOk(e, NoLeftover) && FilesWritten(d, s, e)
  }

  ghost predicate NodeRun(d: Setup, s: State, es: seq<Event>, s': State)
    decreases |es|
  {
    if es == [] then s == s' else Proper(d, s, es[0]) && NodeRun(d, Next(d, s, es[0]), es[1..], s')
  }

  // ---------- the records and their file ----------

  function StoreOf(s: State): VolumeStore.Store<NodeVolume> {
    VolumeStore.Store(s.records, s.file)
  }

  /** A restart would find the records again. */
  ghost predicate Durable(d: Setup, s: State) {
    VolumeStore.Recoverable(d.codec, d.key, StoreOf(s))
  }

  /** Some calls of Put and Pop, their saves succeeding, lead from one store to the other. */
  ghost predicate ByCalls(d: Setup, a: VolumeStore.Store<NodeVolume>, b: VolumeStore.Store<NodeVolume>) {
    exists ops: seq<VolumeStore.Op<NodeVolume>> ::
      VolumeStore.StoreRun(d.codec, d.key, a, ops, b) && forall op | op in ops :: !op.RestartOp?
  }

  lemma {:induction false} ByNone(d: Setup, a: VolumeStore.Store<NodeVolume>)
    ensures ByCalls(d, a, a)
  {
    assert VolumeStore.StoreRun(d.codec, d.key, a, [], a);
  }

  lemma {:induction false} ByOne(d: Setup, a: VolumeStore.Store<NodeVolume>, op: VolumeStore.Op<NodeVolume>, b: VolumeStore.Store<NodeVolume>)
    requires VolumeStore.Next(d.codec, d.key, a, op, b) && !op.RestartOp?
    ensures ByCalls(d, a, b)
  {
    assert [op][1..] == [];
    assert VolumeStore.StoreRun(d.codec, d.key, b, [op][1..], b);
    assert VolumeStore.StoreRun(d.codec, d.key, a, [op], b);
  }

  lemma {:induction false} ByTwo(d: Setup, a: VolumeStore.Store<NodeVolume>, op: VolumeStore.Op<NodeVolume>, m: VolumeStore.Store<NodeVolume>,
                                 op': VolumeStore.Op<NodeVolume>, b: VolumeStore.Store<NodeVolume>)
    requires VolumeStore.Next(d.codec, d.key, a, op, m) && VolumeStore.Next(d.codec, d.key, m, op', b)
    requires !op.RestartOp? && !op'.RestartOp?
    ensures ByCalls(d, a, b)
  {
    assert [op, op'][1..] == [op'] && [op'][1..] == [];
    assert VolumeStore.StoreRun(d.codec, d.key, b, [op'][1..], b);
    assert VolumeStore.StoreRun(d.codec, d.key, m, [op'], b);
    assert VolumeStore.StoreRun(d.codec, d.key, a, [op, op'], b);
  }

  lemma {:induction false} PutsByCalls(d: Setup, s: State, e: Event)
    requires (e.StageEvent? || e.PublishEvent?) && SavesSucceed(e.env) && FilesWritten(d, s, e)
    ensures ByCalls(d, StoreOf(s), StoreOf(Next(d, s, e)))
  {
    var s', id := Next(d, s, e), VolumeOf(e);
    if StoreOf(s') == StoreOf(s) {
      ByNone(d, StoreOf(s));
    } else {
      var v := s'.records[id];
      if e.PublishEvent? && id in s.records {
        var m := VolumeStore.Store(s.records - {id}, e.env.popFile);
        assert m.volumes[id := v] == s.records[id := v];
        ByTwo(d, StoreOf(s), VolumeStore.PopOp(id), m, VolumeStore.PutOp(id, v), StoreOf(s'));
      } else {
        ByOne(d, StoreOf(s), VolumeStore.PutOp(id, v), StoreOf(s'));
      }
    }
  }

  /** Unpublishing and unstaging leave the records alone or drop the one of their volume. */
  lemma {:induction false} UnpublishDrops(d: Setup, s: State, r: Unpublish, env: Env)
    ensures var s' := UnpublishSpec(d.accepts, s, r, env).0;
            StoreOf(s') == StoreOf(s) || (r.volume in s.records && StoreOf(s') == StoreOf(DropSpec(s, env, r.volume)))
  {
  }

  lemma {:induction false} UnstageDrops(d: Setup, s: State, r: Unstage, env: Env)
    ensures var s' := UnstageSpec(d.accepts, s, r, env).0;
            StoreOf(s') == StoreOf(s) || (r.volume in s.records && StoreOf(s') == StoreOf(DropSpec(s, env, r.volume)))
  {
  }

  lemma {:induction false} DropByCalls(d: Setup, s: State, env: Env, volume: string)
    requires volume in s.records && VolumeStore.Saved(d.codec, d.key, env.popFile, s.records - {volume})
    ensures ByCalls(d, StoreOf(s), StoreOf(DropSpec(s, env, volume)))
  {
    ByOne(d, StoreOf(s), VolumeStore.PopOp(volume), StoreOf(DropSpec(s, env, volume)));
  }

  lemma {:induction false} PopsByCalls(d: Setup, s: State, e: Event)
    requires (e.UnpublishEvent? || e.UnstageEvent?) && SavesSucceed(e.env) && FilesWritten(d, s, e)
    ensures ByCalls(d, StoreOf(s), StoreOf(Next(d, s, e)))
  {
    var id := VolumeOf(e);
    if e.UnpublishEvent? {
      UnpublishDrops(d, s, e.unpublish, e.env);
    } else {
      UnstageDrops(d, s, e.unstage, e.env);
    }
    ByNone(d, StoreOf(s));
    if id in s.records {
      DropByCalls(d, s, e.env, id);
    }
  }

  /** What a request does to the records and their file it does by calling the volume manager. */
  lemma {:induction false} RequestByCalls(d: Setup, s: State, e: Event)
    requires !e.RestartEvent? && SavesSucceed(e.env) && FilesWritten(d, s, e)
    ensures ByCalls(d, StoreOf(s), StoreOf(Next(d, s, e)))
  {
    if e.StageEvent? || e.PublishEvent? {
      PutsByCalls(d, s, e);
    } else {
      PopsByCalls(d, s, e);
    }
  }

  /** Every event leaves records that a restart finds again, and so a restart changes nothing but the
      gauge. */
  lemma {:induction false} DurableKept(d: Setup, s: State, e: Event)
    requires VolumeStore.Lawful(d.codec) && Durable(d, s) && EnvOk(e, SavesSucceed) && FilesWritten(d, s, e)
    ensures Durable(d, Next(d, s, e))
    ensures e.RestartEvent? ==> Next(d, s, e) == s.(gauge := 0)
    ensures e.RestartEvent? ==> Next(d, s, e).records == VolumeStore.Load(d.codec, d.key, s.file).volumes
  {
    if !e.RestartEvent? {
      RequestByCalls(d, s, e);
      var ops :| VolumeStore.StoreRun(d.codec, d.key, StoreOf(s), ops, StoreOf(Next(d, s, e)));
      VolumeStore.RunRefinesMap(d.codec, d.key, StoreOf(s), ops, StoreOf(Next(d, s, e)));
    }
  }

  // ---------- the gauge ----------

  lemma {:induction false} AddedMount(m: map<string, string>, p: string, v: string)
    requires p !in m
    ensures |m[p := v]| == |m| + 1
  {
    assert m[p := v].Keys == m.Keys + {p};
  }

  lemma {:induction false} RemovedMount(m: map<string, string>, p: string)
    ensures |m - {p}| == if p in m then |m| - 1 else |m|
  {
    assert (m - {p}).Keys == m.Keys - {p};
  }

  /** A publish or a dynamic stage gets as far as mounting the path, which is free. */
  predicate TriesMount(accepts: Config -> bool, s: State, e: Event) {
    match e
    case StageEvent(r, env) =>
      && r.volume != "" && r.isDynamic && r.path != "" && r.validCapability
      && !env.accessFails && !env.probeFails && r.path !in s.mounts && accepts(r.config)
    case PublishEvent(r, env) =>
      && r.volume != "" && r.path != "" && r.validCapability
      && !env.accessFails && !env.probeFails && r.path !in s.mounts
      && if r.isDynamic then r.stagingPath != "" else accepts(r.config)
    case _ => false
  }

  /** The mount fails and leaves the path mounted. */
  predicate LeavesMount(accepts: Config -> bool, s: State, e: Event) {
    TriesMount(accepts, s, e) && e.env.mount.MountFails? && e.env.mount.leftover
  }

  /** A dynamic volume is bound to its path, and the request fails after that. */
  predicate UncountedBind(accepts: Config -> bool, s: State, e: Event) {
    && TriesMount(accepts, s, e) && e.PublishEvent? && e.publish.isDynamic && e.env.mount.MountDone?
    && (e.publish.volume !in s.records || e.env.popFails || e.env.putFails)
  }

  /** An unpublish or unstage gets as far as unmounting the path. */
  predicate TriesUnmount(accepts: Config -> bool, s: State, e: Event) {
    match e
    case UnpublishEvent(r, env) =>
      var v := Get(s.records, r.volume);
      && r.volume != "" && r.path != "" && !env.probeFails && r.path in s.mounts
      && (v.Some? && !v.value.isStaged ==> !env.popFails)
      && (v.Some? && !v.value.isDynamic ==> accepts(v.value.clientConfig))
    case UnstageEvent(r, env) =>
      var v := Get(s.records, r.volume);
      && r.volume != "" && r.path != "" && !env.probeFails && r.path in s.mounts
      && (v.Some? ==> !env.popFails && v.value.isDynamic && accepts(v.value.clientConfig))
    case _ => false
  }

  /** The unmount fails with the path gone. */
  predicate HalfUnmount(accepts: Config -> bool, s: State, e: Event) {
    TriesUnmount(accepts, s, e) && e.env.unmount == UnmountFails(true)
  }

  /** By how much an event moves the gauge away from the number of mounted paths. */
  function Drift(d: Setup, s: State, e: Event): int {
    if e.RestartEvent? then -s.gauge
    else if HalfUnmount(d.accepts, s, e) then 1
    else if LeavesMount(d.accepts, s, e) || UncountedBind(d.accepts, s, e) then -1
    else 0
  }

  function AfterAll(d: Setup, s: State, es: seq<Event>): State
    decreases |es|
  {
    if es == [] then s else AfterAll(d, Next(d, s, es[0]), es[1..])
  }

  function TotalDrift(d: Setup, s: State, es: seq<Event>): int
    decreases |es|
  {
    if es == [] then 0 else Drift(d, s, es[0]) + TotalDrift(d, Next(d, s, es[0]), es[1..])
  }

  predicate GaugeRight(s: State) {
    s.gauge == |s.mounts|
  }

  function Excess(s: State): int {
    s.gauge - |s.mounts|
  }

  lemma {:induction false} StageDrifts(d: Setup, s: State, r: Stage, env: Env)
    ensures Excess(StageSpec(d.accepts, s, r, env).0) == Excess(s) + Drift(d, s, StageEvent(r, env))
  {
    if r.path !in s.mounts {
      AddedMount(s.mounts, r.path, r.volume);
    }
  }

  lemma {:induction false} PublishDrifts(d: Setup, s: State, r: Publish, env: Env)
    ensures Excess(PublishSpec(d.accepts, s, r, env).0) == Excess(s) + Drift(d, s, PublishEvent(r, env))
  {
    if r.path !in s.mounts {
      AddedMount(s.mounts, r.path, r.volume);
    }
  }

  predicate SameCount(s: State, s': State) {
    s.mounts == s'.mounts && s.gauge == s'.gauge
  }

  lemma {:induction false} UnpublishCounts(d: Setup, s: State, r: Unpublish, env: Env)
    ensures SameCount(UnpublishSpec(d.accepts, s, r, env).0,
                      if TriesUnmount(d.accepts, s, UnpublishEvent(r, env)) then UnmountSpec(s, env, r.path).0 else s)
  {
  }

  lemma {:induction false} UnstageCounts(d: Setup, s: State, r: Unstage, env: Env)
    ensures SameCount(UnstageSpec(d.accepts, s, r, env).0,
                      if TriesUnmount(d.accepts, s, UnstageEvent(r, env)) then UnmountSpec(s, env, r.path).0 else s)
  {
  }

  lemma {:induction false} UnmountDrifts(s: State, env: Env, path: string)
    requires path in s.mounts
    ensures Excess(UnmountSpec(s, env, path).0) == Excess(s) + if env.unmount == UnmountFails(true) then 1 else 0
  {
    RemovedMount(s.mounts, path);
  }

  /** An unmount of a mounted path keeps the gauge right exactly if it does not fail half way. */
  lemma {:induction false} UnmountGauge(s: State, env: Env, path: string)
    requires GaugeRight(s) && path in s.mounts
    ensures GaugeRight(UnmountSpec(s, env, path).0) <==> NoHalfUnmount(env)
  {
    UnmountDrifts(s, env, path);
  }

  lemma {:induction false} UnpublishDrifts(d: Setup, s: State, r: Unpublish, env: Env)
    ensures Excess(UnpublishSpec(d.accepts, s, r, env).0) == Excess(s) + Drift(d, s, UnpublishEvent(r, env))
  {
    UnpublishCounts(d, s, r, env);
    if TriesUnmount(d.accepts, s, UnpublishEvent(r, env)) {
      UnmountDrifts(s, env, r.path);
    }
  }

  lemma {:induction false} UnstageDrifts(d: Setup, s: State, r: Unstage, env: Env)
    ensures Excess(UnstageSpec(d.accepts, s, r, env).0) == Excess(s) + Drift(d, s, UnstageEvent(r, env))
  {
    UnstageCounts(d, s, r, env);
    if TriesUnmount(d.accepts, s, UnstageEvent(r, env)) {
      UnmountDrifts(s, env, r.path);
    }
  }

  lemma {:induction false} EventDrifts(d: Setup, s: State, e: Event)
    ensures Excess(Next(d, s, e)) == Excess(s) + Drift(d, s, e)
  {
    match e {
      case StageEvent(r, env) => StageDrifts(d, s, r, env);
      case PublishEvent(r, env) => PublishDrifts(d, s, r, env);
      case UnpublishEvent(r, env) => UnpublishDrifts(d, s, r, env);
      case UnstageEvent(r, env) => UnstageDrifts(d, s, r, env);
      case RestartEvent =>
    }
  }

  /** In every run whatever, the gauge exceeds the number of mounted paths by the half-done unmounts,
      less the mounts that failed and stayed, less the dynamic publishes that failed once bound, a
      restart starting the gauge from zero. */
  lemma {:induction false} GaugeAccount(d: Setup, s: State, es: seq<Event>)
    ensures Excess(AfterAll(d, s, es)) == Excess(s) + TotalDrift(d, s, es)
    decreases |es|
  {
    if es != [] {
      EventDrifts(d, s, es[0]);
      GaugeAccount(d, Next(d, s, es[0]), es[1..]);
    }
  }

  /** Without a restart, if no unmount fails half way, the gauge of an ordered run is the number of paths
      the driver holds mounted. */
  lemma {:induction false} GaugeAgrees(d: Setup, s: State, es: seq<Event>, s': State)
    requires GaugeRight(s) && NodeRun(d, s, es, s')
    requires forall e | e in es :: !e.RestartEvent? && NoHalfUnmount(e.env)
    ensures GaugeRight(s')
    decreases |es|
  {
    if es != [] {
      assert es[0] in es;
      NoDrift(d, s, es[0]);
      EventDrifts(d, s, es[0]);
      GaugeAgrees(d, Next(d, s, es[0]), es[1..], s');
    }
  }

  lemma {:induction false} NoDrift(d: Setup, s: State, e: Event)
    requires Proper(d, s, e) && !e.RestartEvent? && NoHalfUnmount(e.env)
    ensures Drift(d, s, e) == 0
  {
  }

  // ---------- the configuration a client is unmounted with ----------

  /** What the volume was last mounted with. */
  function LastMount(calls: seq<ClientCall>, volume: string): Option<(ClientType, Config)> {
    if calls == [] then None
    else
      var c := calls[|calls| - 1];
      if c.Mounted? && c.volume == volume then Some((c.clientType, c.config))
      else LastMount(calls[..|calls| - 1], volume)
  }

  /** Every UnmountClient call gets what the last successful MountClient call for its volume got. */
  ghost predicate Faithful(calls: seq<ClientCall>) {
    forall i | 0 <= i < |calls| && calls[i].Unmounting? ::
      LastMount(calls[..i], calls[i].volume) == Some((calls[i].clientType, calls[i].config))
  }

  /** v describes the last mount of its volume. */
  ghost predicate Describes(accepts: Config -> bool, calls: seq<ClientCall>, volume: string, v: NodeVolume) {
    LastMount(calls, volume) == Some((ValidClientType(v.clientType), v.clientConfig)) && accepts(v.clientConfig)
  }

  ghost predicate RecordInv(accepts: Config -> bool, s: State) {
    forall id | id in s.records ::
      if s.records[id].isDynamic || s.records[id].mountPath != "" then Describes(accepts, s.calls, id, s.records[id])
      else id !in s.mounts.Values
  }

  ghost predicate ConfigInv(accepts: Config -> bool, s: State) {
    Faithful(s.calls) && RecordInv(accepts, s)
  }

  lemma {:induction false} TypeNameKept(t: ClientType)
    ensures ValidClientType(TypeName(t)) == t
  {
    assert ToLower("webdav") == "webdav" && ToLower("nfs") == "nfs";
    assert ToLower("irodsfuse")[0] == 'i';
  }

  lemma {:induction false} MountLogged(calls: seq<ClientCall>, volume: string, t: ClientType, c: Config)
    requires Faithful(calls)
    ensures var calls' := calls + [Mounted(volume, t, c)];
            && Faithful(calls')
            && LastMount(calls', volume) == Some((t, c))
            && forall id | id != volume :: LastMount(calls', id) == LastMount(calls, id)
  {
    var calls' := calls + [Mounted(volume, t, c)];
    assert calls'[..|calls|] == calls;
    assert forall i | 0 <= i < |calls| :: calls'[i] == calls[i] && calls'[..i] == calls[..i];
  }

  /** The log of an UnmountClient call: made, and perhaps gone through. */
  predicate LogsUnmount(calls: seq<ClientCall>, calls': seq<ClientCall>, volume: string, t: ClientType, c: Config) {
    || calls' == calls + [Unmounting(volume, t, c)]
    || calls' == calls + [Unmounting(volume, t, c)] + [CleanedUp(volume)]
  }

  /** What an entry of the log that is not a mount says, as far as it says anything. */
  lemma {:induction false} Logged(calls: seq<ClientCall>, c: ClientCall)
    requires !c.Mounted?
    ensures forall id :: LastMount(calls + [c], id) == LastMount(calls, id)
    ensures Faithful(calls + [c])
        <==> Faithful(calls) && (c.Unmounting? ==> LastMount(calls, c.volume) == Some((c.clientType, c.config)))
  {
    var calls' := calls + [c];
    assert calls'[..|calls|] == calls;
    assert forall i | 0 <= i < |calls| :: calls'[i] == calls[i] && calls'[..i] == calls[..i];
    assert calls'[|calls|] == c;
  }

  lemma {:induction false} UnmountLogged(calls: seq<ClientCall>, calls': seq<ClientCall>, volume: string, t: ClientType, c: Config)
    requires LogsUnmount(calls, calls', volume, t, c)
    ensures forall id :: LastMount(calls', id) == LastMount(calls, id)
    ensures Faithful(calls') <==> Faithful(calls) && LastMount(calls, volume) == Some((t, c))
  {
    Logged(calls, Unmounting(volume, t, c));
    Logged(calls + [Unmounting(volume, t, c)], CleanedUp(volume));
  }

  lemma {:induction false} StageKeepsConfig(accepts: Config -> bool, s: State, r: Stage, env: Env)
    requires ConfigInv(accepts, s) && InOrder(s, StageEvent(r, env)) && NoLeftover(env)
    ensures ConfigInv(accepts, StageSpec(accepts, s, r, env).0)
  {
    var s' := StageSpec(accepts, s, r, env).0;
    if s'.calls != s.calls {
      MountLogged(s.calls, r.volume, ClientTypeOf(r.config), r.config);
      TypeNameKept(ClientTypeOf(r.config));
    }
    forall id | id in s'.records && id != r.volume
      ensures s'.records[id] == s.records[id] && (id in s'.mounts.Values ==> id in s.mounts.Values)
    {
    }
  }

  lemma {:induction false} PublishKeepsConfig(accepts: Config -> bool, s: State, r: Publish, env: Env)
    requires ConfigInv(accepts, s) && InOrder(s, PublishEvent(r, env)) && NoLeftover(env) && SavesSucceed(env)
    ensures ConfigInv(accepts, PublishSpec(accepts, s, r, env).0)
  {
    var s' := PublishSpec(accepts, s, r, env).0;
    if s'.calls != s.calls {
      MountLogged(s.calls, r.volume, ClientTypeOf(r.config), r.config);
      TypeNameKept(ClientTypeOf(r.config));
    }
    forall id | id in s'.records && id != r.volume
      ensures s'.records[id] == s.records[id] && (id in s'.mounts.Values ==> id in s.mounts.Values)
    {
    }
  }

  /** Dropping records and mounts is harmless as long as the log says the same. */
  lemma {:induction false} ConfigShrinks(accepts: Config -> bool, s: State, s': State)
    requires RecordInv(accepts, s) && Faithful(s'.calls)
    requires forall id | id in s'.records :: id in s.records && s'.records[id] == s.records[id]
    requires forall p | p in s'.mounts :: p in s.mounts && s'.mounts[p] == s.mounts[p]
    requires s'.calls == s.calls || forall id :: LastMount(s'.calls, id) == LastMount(s.calls, id)
    ensures ConfigInv(accepts, s')
  {
    forall id | id in s'.records
      ensures Describes(accepts, s.calls, id, s.records[id]) ==> Describes(accepts, s'.calls, id, s'.records[id])
      ensures id !in s.mounts.Values ==> id !in s'.mounts.Values
    {
    }
  }

  /** Unpublishing only drops records and mounts, and logs at most the one call the record asks for. */
  lemma {:induction false} UnpublishOnlyDrops(accepts: Config -> bool, s: State, r: Unpublish, env: Env)
    ensures var s' := UnpublishSpec(accepts, s, r, env).0;
            && (forall id | id in s'.records :: id in s.records && s'.records[id] == s.records[id])
            && (forall p | p in s'.mounts :: p in s.mounts && s'.mounts[p] == s.mounts[p])
            && (s'.calls == s.calls
                || (&& r.volume in s.records && r.path in s.mounts && !s.records[r.volume].isDynamic
                    && var v := s.records[r.volume];
                       LogsUnmount(s.calls, s'.calls, r.volume, ValidClientType(v.clientType), v.clientConfig)))
  {
  }

  lemma {:induction false} UnpublishKeepsConfig(accepts: Config -> bool, s: State, r: Unpublish, env: Env)
    requires ConfigInv(accepts, s) && InOrder(s, UnpublishEvent(r, env))
    ensures ConfigInv(accepts, UnpublishSpec(accepts, s, r, env).0)
  {
    UnpublishOnlyDrops(accepts, s, r, env);
    var s' := UnpublishSpec(accepts, s, r, env).0;
    if s'.calls != s.calls {
      var v := s.records[r.volume];
      assert s.mounts[r.path] in s.mounts.Values;
      assert Describes(accepts, s.calls, r.volume, v);
      UnmountLogged(s.calls, s'.calls, r.volume, ValidClientType(v.clientType), v.clientConfig);
    }
    ConfigShrinks(accepts, s, s');
  }

  lemma {:induction false} UnstageOnlyDrops(accepts: Config -> bool, s: State, r: Unstage, env: Env)
    ensures var s' := UnstageSpec(accepts, s, r, env).0;
            && (forall id | id in s'.records :: id in s.records && s'.records[id] == s.records[id])
            && (forall p | p in s'.mounts :: p in s.mounts && s'.mounts[p] == s.mounts[p])
            && (s'.calls == s.calls
                || (&& r.volume in s.records && s.records[r.volume].isDynamic
                    && var v := s.records[r.volume];
                       LogsUnmount(s.calls, s'.calls, r.volume, ValidClientType(v.clientType), v.clientConfig)))
  {
  }

  lemma {:induction false} UnstageKeepsConfig(accepts: Config -> bool, s: State, r: Unstage, env: Env)
    requires ConfigInv(accepts, s)
    ensures ConfigInv(accepts, UnstageSpec(accepts, s, r, env).0)
  {
    UnstageOnlyDrops(accepts, s, r, env);
    var s' := UnstageSpec(accepts, s, r, env).0;
    if s'.calls != s.calls {
      var v := s.records[r.volume];
      assert Describes(accepts, s.calls, r.volume, v);
      UnmountLogged(s.calls, s'.calls, r.volume, ValidClientType(v.clientType), v.clientConfig);
    }
    ConfigShrinks(accepts, s, s');
  }

  lemma {:induction false} ConfigKept(d: Setup, s: State, es: seq<Event>, s': State)
    requires VolumeStore.Lawful(d.codec) && Durable(d, s) && ConfigInv(d.accepts, s) && NodeRun(d, s, es, s')
    ensures ConfigInv(d.accepts, s')
    decreases |es|
  {
    if es != [] {
      match es[0] {
        case StageEvent(r, env) => StageKeepsConfig(d.accepts, s, r, env);
        case PublishEvent(r, env) => PublishKeepsConfig(d.accepts, s, r, env);
        case UnpublishEvent(r, env) => UnpublishKeepsConfig(d.accepts, s, r, env);
        case UnstageEvent(r, env) => UnstageKeepsConfig(d.accepts, s, r, env);
        case RestartEvent =>
      }
      DurableKept(d, s, es[0]);
      ConfigKept(d, Next(d, s, es[0]), es[1..], s');
    }
  }

  const FRESH_NODE := State(map[], None, map[], 0, [])

  /** In every ordered run from a fresh node, with restarts that load what was saved, every
      UnmountClient call gets the client type and configuration of the last successful MountClient
      call for its volume. */
  lemma {:induction false} ConfigFidelity(d: Setup, es: seq<Event>, s: State)
    requires VolumeStore.Lawful(d.codec) && NodeRun(d, FRESH_NODE, es, s)
    ensures Faithful(s.calls)
  {
    ConfigKept(d, FRESH_NODE, es, s);
  }

  predicate Staged(s: State, id: string) {
    id in s.records && s.records[id].isStaged
  }

  lemma {:induction false} StagedStays(d: Setup, s: State, e: Event, id: string)
    requires !e.RestartEvent? && SavesSucceed(e.env) && Staged(s, id) && !(e.UnstageEvent? && e.unstage.volume == id)
    ensures Staged(Next(d, s, e), id)
  {
  }

  /** A record that staging made is removed by unstaging that volume and by nothing else, restarts
      included: if a run ends without it, the volume was unstaged on the way. */
  lemma {:induction false} StagedRecordsStay(d: Setup, s: State, es: seq<Event>, s': State, id: string)
    requires VolumeStore.Lawful(d.codec) && Durable(d, s)
    requires NodeRun(d, s, es, s') && Staged(s, id) && !Staged(s', id)
    ensures exists e | e in es :: e.UnstageEvent? && e.unstage.volume == id
    decreases |es|
  {
    if es != [] && !(es[0].UnstageEvent? && es[0].unstage.volume == id) {
      DurableKept(d, s, es[0]);
      if !es[0].RestartEvent? {
        StagedStays(d, s, es[0], id);
      }
      StagedRecordsStay(d, Next(d, s, es[0]), es[1..], s', id);
    } else if es != [] {
      assert es[0] in es;
    }
  }

  /** Staging a static volume once more while it is mounted empties its record: the client is then
      unmounted with what it was mounted with only if that was an iRODS client with no settings. */
  lemma {:induction false} RestageLosesConfig(accepts: Config -> bool, s: State, stage: Stage, env: Env, r: Unpublish, env': Env)
    requires Faithful(s.calls) && stage.volume != "" && !stage.isDynamic
    requires r.volume == stage.volume && r.path != "" && !env'.probeFails
    ensures var restaged := StageSpec(accepts, s, stage, env).0;
            var s' := UnpublishSpec(accepts, restaged, r, env').0;
            Faithful(s'.calls) <==> r.path !in s.mounts || LastMount(s.calls, r.volume) == Some((IrodsFuse, map[]))
  {
    var restaged := StageSpec(accepts, s, stage, env).0;
    var s' := UnpublishSpec(accepts, restaged, r, env').0;
    if r.path in s.mounts {
      assert LogsUnmount(s.calls, s'.calls, r.volume, IrodsFuse, map[]);
      UnmountLogged(s.calls, s'.calls, r.volume, IrodsFuse, map[]);
    }
  }

  // ---------- repeating a request ----------

  predicate AllWell(env: Env) {
    !env.probeFails && env.unmount.UnmountDone? && !env.removeFails && SavesSucceed(env)
  }

  /** After a success, unpublishing again changes nothing, and succeeds if the path can be probed. */
  lemma {:induction false} UnpublishIdempotent(accepts: Config -> bool, s: State, r: Unpublish, env: Env, env': Env)
    requires UnpublishSpec(accepts, s, r, env).1 == Done
    ensures var once := UnpublishSpec(accepts, s, r, env).0;
            UnpublishSpec(accepts, once, r, env') == (once, if env'.probeFails then Internal else Done)
  {
    var once := UnpublishSpec(accepts, s, r, env).0;
    assert r.path !in once.mounts;
  }

  /** Once its record is gone and its path is unmounted, unstaging a volume does nothing. */
  lemma {:induction false} NothingToUnstage(accepts: Config -> bool, s: State, r: Unstage, env: Env)
    requires r.volume !in s.records && r.volume != ""
    ensures UnstageSpec(accepts, s, r, env) == (s, Done) <==> r.path != "" && !env.probeFails && r.path !in s.mounts
  {
    assert s.records - {r.volume} == s.records;
    assert s.(records := s.records) == s;
    if r.path != "" && !env.probeFails && r.path in s.mounts {
      assert UnstageSpec(accepts, s, r, env).1 == Done ==> env.unmount.UnmountDone?;
    }
  }

  /** After a success, unstaging again succeeds and changes nothing exactly when the staging path is
      given, can be probed and is not mounted; for a volume that was dynamic it never is. */
  lemma {:induction false} UnstageIdempotent(accepts: Config -> bool, s: State, r: Unstage, env: Env, env': Env)
    requires UnstageSpec(accepts, s, r, env).1 == Done
    ensures var once := UnstageSpec(accepts, s, r, env).0;
            && (UnstageSpec(accepts, once, r, env') == (once, Done) <==> r.path != "" && !env'.probeFails && r.path !in once.mounts)
            && (!(r.volume in s.records && !s.records[r.volume].isDynamic) ==> r.path != "" && r.path !in once.mounts)
  {
    var once := UnstageSpec(accepts, s, r, env).0;
    NothingToUnstage(accepts, once, r, env');
  }

  /** However an attempt to unpublish went, a retry for which nothing fails ends with the path
      unmounted, with or without the record. */
  lemma {:induction false} UnpublishConverges(accepts: Config -> bool, s: State, r: Unpublish, env: Env, env': Env)
    requires ConfigInv(accepts, s) && InOrder(s, UnpublishEvent(r, env)) && r.volume != "" && r.path != "" && AllWell(env')
    ensures var tried := UnpublishSpec(accepts, s, r, env).0;
            var (s', reply) := UnpublishSpec(accepts, tried, r, env');
            reply == Done && r.path !in s'.mounts && s'.gauge == tried.gauge - if r.path in tried.mounts then 1 else 0
  {
    var tried := UnpublishSpec(accepts, s, r, env).0;
    if r.path in tried.mounts {
      assert r.volume in s.mounts.Values;
    }
  }

  /** The same for unstaging, whose first attempt always drops the record. */
  lemma {:induction false} UnstageConverges(accepts: Config -> bool, s: State, r: Unstage, env: Env, env': Env)
    requires r.volume != "" && r.path != "" && AllWell(env')
    ensures var tried := UnstageSpec(accepts, s, r, env).0;
            var (s', reply) := UnstageSpec(accepts, tried, r, env');
            && reply == Done && r.path !in s'.mounts && s'.records == tried.records
            && s'.gauge == tried.gauge - if r.path in tried.mounts then 1 else 0
  {
    var tried := UnstageSpec(accepts, s, r, env).0;
    assert r.volume !in tried.records;
  }

  // ---------- cleaning up after the client ----------

  /** Between s and s' an UnmountClient call for the volume went through. */
  predicate CleanedSince(s: State, s': State, volume: string) {
    exists i | |s.calls| <= i < |s'.calls| :: s'.calls[i] == CleanedUp(volume)
  }

  /** An attempt to unpublish gets as far as calling UnmountClient. */
  predicate ReachesClient(s: State, r: Unpublish, env: Env) {
    && r.volume in s.records && !s.records[r.volume].isDynamic && r.path in s.mounts
    && r.volume != "" && r.path != "" && !env.probeFails && (s.records[r.volume].isStaged || !env.popFails)
  }

  /** The volume is static and mounted, and its client can be unmounted with what the record says. */
  predicate StaticMounted(accepts: Config -> bool, s: State, r: Unpublish) {
    && r.volume != "" && r.path != "" && r.path in s.mounts
    && r.volume in s.records && !s.records[r.volume].isDynamic && accepts(s.records[r.volume].clientConfig)
  }

  /** If an attempt to unpublish a static volume is retried and nothing fails then, the retry reports
      success and the path is unmounted. But UnmountClient went through, and with it the write-back
      began, exactly if the first attempt called it and the unmount was done, or if both the record
      and the mount survived the attempt: the volume was staged, and the attempt did not get to the
      client or failed with the path still mounted. */
  lemma {:induction false} RetryCleansUpIff(accepts: Config -> bool, s: State, r: Unpublish, env: Env, env': Env)
    requires StaticMounted(accepts, s, r) && AllWell(env')
    ensures var tried := UnpublishSpec(accepts, s, r, env).0;
            var (s', reply) := UnpublishSpec(accepts, tried, r, env');
            && reply == Done && r.path !in s'.mounts
            && (CleanedSince(s, s', r.volume) <==>
                  || (ReachesClient(s, r, env) && env.unmount.UnmountDone?)
                  || (s.records[r.volume].isStaged && (ReachesClient(s, r, env) ==> env.unmount == UnmountFails(false))))
  {
    var tried := UnpublishSpec(accepts, s, r, env).0;
    var s' := UnpublishSpec(accepts, tried, r, env').0;
    var n := |s.calls|;
    if ReachesClient(s, r, env) {
      assert tried.calls[n].Unmounting?;
      if env.unmount.UnmountDone? {
        assert s'.calls[n + 1] == CleanedUp(r.volume);
      } else if env.unmount == UnmountFails(false) && s.records[r.volume].isStaged {
        assert s'.calls[n + 2] == CleanedUp(r.volume);
      } else {
        assert s'.calls == tried.calls && |tried.calls| == n + 1;
      }
    } else if s.records[r.volume].isStaged {
      assert tried == s && s'.calls[n + 1] == CleanedUp(r.volume);
    } else {
      assert s'.calls == s.calls;
    }
  }

  /** Unstaging a dynamic volume drops the record first, so only the first attempt can do it. */
  lemma {:induction false} UnstageRetryCleansUpIff(accepts: Config -> bool, s: State, r: Unstage, env: Env, env': Env)
    requires r.volume != "" && r.path != "" && r.path in s.mounts && AllWell(env')
    requires r.volume in s.records && s.records[r.volume].isDynamic && accepts(s.records[r.volume].clientConfig)
    ensures var tried := UnstageSpec(accepts, s, r, env).0;
            var (s', reply) := UnstageSpec(accepts, tried, r, env');
            && reply == Done && r.path !in s'.mounts
            && (CleanedSince(s, s', r.volume) <==> !env.popFails && !env.probeFails && env.unmount.UnmountDone?)
  {
    var tried := UnstageSpec(accepts, s, r, env).0;
    var s' := UnstageSpec(accepts, tried, r, env').0;
    assert r.volume !in tried.records && s'.calls == tried.calls;
    if !env.popFails && !env.probeFails {
      assert tried.calls[|s.calls|].Unmounting?;
      if env.unmount.UnmountDone? {
        assert tried.calls[|s.calls| + 1] == CleanedUp(r.volume);
      }
    }
  }
}
