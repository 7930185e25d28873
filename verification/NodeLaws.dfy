/** When the four requests of the node service succeed, and what a volume goes through from staging to
    unstaging. */
module NodeLaws {
  import opened NodeRuns
  import opened NodeServer
  import opened Text
  import opened Trees

  /** The client a configuration asks for: that of iRODS unless the word is one of the two others. */
  predicate AsksFor(c: Config, t: ClientType) {
    match t
    case Webdav => "client" in c && SpellsLetters(c["client"], "webdav")
    case Nfs => "client" in c && SpellsLetters(c["client"], "nfs")
    case IrodsFuse => "client" in c ==> !SpellsLetters(c["client"], "webdav") && !SpellsLetters(c["client"], "nfs")
  }

  lemma {:induction false} AsksForIff(c: Config, t: ClientType)
    ensures AsksFor(c, t) <==> t == ClientTypeOf(c)
    ensures ValidClientType(TypeName(ClientTypeOf(c))) == ClientTypeOf(c)
  {
    ClientTypeIff(c);
    TypeNameKept(ClientTypeOf(c));
  }

  predicate IsFree(s: State, path: string, env: Env) {
    path != "" && !env.accessFails && !env.probeFails && path !in s.mounts
  }

  // ---------- when a request succeeds ----------

  lemma {:induction false} StageDoneIff(accepts: Config -> bool, s: State, r: Stage, env: Env)
    ensures StageSpec(accepts, s, r, env).1 == Done <==>
              && r.volume != "" && !env.putFails
              && (r.isDynamic ==> r.validCapability && IsFree(s, r.path, env) && accepts(r.config) && env.mount.MountDone?)
    ensures StageSpec(accepts, s, r, env).1 in {InvalidArgument, Internal} ==>
              StageSpec(accepts, s, r, env).0.records == s.records && StageSpec(accepts, s, r, env).0.file == s.file
  {
  }

  lemma {:induction false} PublishDoneIff(accepts: Config -> bool, s: State, r: Publish, env: Env)
    ensures PublishSpec(accepts, s, r, env).1 == Done <==>
              && r.volume != "" && r.validCapability && IsFree(s, r.path, env) && env.mount.MountDone? && !env.putFails
              && (r.volume in s.records ==> !env.popFails)
              && if r.isDynamic then r.stagingPath != "" && r.volume in s.records else accepts(r.config)
    ensures PublishSpec(accepts, s, r, env).1 in {InvalidArgument, Internal} ==>
              PublishSpec(accepts, s, r, env).0.records == s.records && PublishSpec(accepts, s, r, env).0.file == s.file
  {
  }

  lemma {:induction false} UnpublishDoneIff(accepts: Config -> bool, s: State, r: Unpublish, env: Env)
    ensures UnpublishSpec(accepts, s, r, env).1 == Done <==>
              && r.volume != "" && r.path != "" && !env.probeFails
              && (r.volume in s.records && !s.records[r.volume].isStaged ==> !env.popFails)
              && (r.path in s.mounts ==>
                    && env.unmount.UnmountDone? && !env.removeFails
                    && (r.volume in s.records && !s.records[r.volume].isDynamic ==> accepts(s.records[r.volume].clientConfig)))
  {
  }

  lemma {:induction false} UnstageDoneIff(accepts: Config -> bool, s: State, r: Unstage, env: Env)
    ensures UnstageSpec(accepts, s, r, env).1 == Done <==>
              && r.volume != "" && (r.volume in s.records ==> !env.popFails)
              && ((r.volume in s.records && !s.records[r.volume].isDynamic)
                  || (&& r.path != "" && !env.probeFails
                      && (r.path in s.mounts ==>
                            && env.unmount.UnmountDone?
                            && (r.volume in s.records ==> accepts(s.records[r.volume].clientConfig)))))
  {
  }

  // ---------- from staging to unstaging ----------

  predicate Works(env: Env) {
    !env.accessFails && env.mount.MountDone? && AllWell(env)
  }

  predicate ForOne(stage: Stage, publish: Publish, unpublish: Unpublish, unstage: Unstage) {
    && stage.volume == publish.volume == unpublish.volume == unstage.volume != ""
    && stage.isDynamic == publish.isDynamic && publish.path == unpublish.path != "" && publish.validCapability
  }

  /** A static volume: publishing mounts the client with the configuration and unpublishing unmounts it
      with the same; then nothing is left of the volume on the node. */
  lemma {:induction false} StaticCycle(accepts: Config -> bool, s: State, stage: Stage, publish: Publish, unpublish: Unpublish,
                                       unstage: Unstage, env: Env)
    requires Works(env) && ForOne(stage, publish, unpublish, unstage) && !stage.isDynamic
    requires stage.volume !in s.records && publish.path !in s.mounts && accepts(publish.config)
    ensures var id := stage.volume;
            var s1 := StageSpec(accepts, s, stage, env).0;
            var s2 := PublishSpec(accepts, s1, publish, env).0;
            var s3 := UnpublishSpec(accepts, s2, unpublish, env).0;
            var s4 := UnstageSpec(accepts, s3, unstage, env).0;
            && (exists t :: AsksFor(publish.config, t)
                  && s2.calls == s.calls + [Mounted(id, t, publish.config)]
                  && s4.calls == s2.calls + [Unmounting(id, t, publish.config), CleanedUp(id)])
            && s1.records.Keys == s.records.Keys + {id} && s1.mounts == s.mounts
            && s2.mounts == s.mounts[publish.path := id] && s2.gauge == s.gauge + 1
            && id in s2.records && s2.records[id].mountPath == publish.path && s2.records[id].mountOptions == publish.options
            && id in s3.records && s3.mounts == s.mounts
            && s4 == s.(file := env.popFile, calls := s4.calls)
  {
    var id := stage.volume;
    AsksForIff(publish.config, ClientTypeOf(publish.config));
    var s1 := StageSpec(accepts, s, stage, env).0;
    var s2 := PublishSpec(accepts, s1, publish, env).0;
    var s3 := UnpublishSpec(accepts, s2, unpublish, env).0;
    assert s3.mounts == s.mounts;
  }

  /** A dynamic volume: staging mounts the client, publishing binds it to its path; unpublishing takes
      back the one and unstaging the other, with the configuration of the mount. */
  lemma {:induction false} DynamicCycle(accepts: Config -> bool, s: State, stage: Stage, publish: Publish, unpublish: Unpublish,
                                        unstage: Unstage, env: Env)
    requires Works(env) && ForOne(stage, publish, unpublish, unstage) && stage.isDynamic && stage.validCapability
    requires stage.path == publish.stagingPath == unstage.path != "" && stage.path != publish.path
    requires stage.volume !in s.records && stage.path !in s.mounts && publish.path !in s.mounts && accepts(stage.config)
    ensures var id := stage.volume;
            var s1 := StageSpec(accepts, s, stage, env).0;
            var s2 := PublishSpec(accepts, s1, publish, env).0;
            var s3 := UnpublishSpec(accepts, s2, unpublish, env).0;
            var s4 := UnstageSpec(accepts, s3, unstage, env).0;
            && (exists t :: AsksFor(stage.config, t)
                  && s1.calls == s2.calls == s3.calls == s.calls + [Mounted(id, t, stage.config)]
                  && s4.calls == s3.calls + [Unmounting(id, t, stage.config), CleanedUp(id)])
            && s1.mounts == s.mounts[stage.path := id] && s2.mounts == s1.mounts[publish.path := id]
            && s3.mounts == s1.mounts && s2.gauge == s.gauge + 2
            && id in s2.records && s2.records[id].stagingMountPath == stage.path && s2.records[id].stagingMountOptions == stage.options
            && s2.records[id].mountPath == publish.path && s2.records[id].mountOptions == publish.options
            && s4 == s.(file := env.popFile, calls := s4.calls)
  {
    var id := stage.volume;
    AsksForIff(stage.config, ClientTypeOf(stage.config));
    var s1 := StageSpec(accepts, s, stage, env).0;
    var s2 := PublishSpec(accepts, s1, publish, env).0;
    var s3 := UnpublishSpec(accepts, s2, unpublish, env).0;
    assert s3.mounts == s1.mounts;
    var s4 := UnstageSpec(accepts, s3, unstage, env).0;
    assert s4.mounts == s.mounts && s4.records == s.records;
  }
}
