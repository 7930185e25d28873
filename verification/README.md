# iRODS CSI driver: a verified model

The driver mounts iRODS collections into Kubernetes pods. This project models the parts of it where
data can be lost or state can drift, and proves what they keep.

**Overlay write-back** (`Trees`, `Overlay`, `OverlayLaws`, `Walk`, `SyncTasks`, `SyncClient`, `SyncInOrder`, `SyncRace`,
`SyncRuns`, `SyncMidway`). When an overlay volume is unmounted, `Sync` walks the upper layer and queues one job per
entry, with a barrier whenever the parent directory changes. `Overlay.Merge` is the recursive merge of an
upper over a lower tree, and `Overlay.View` the same pathwise. With marker files shown it is what the "whiteouts and
opaque directories" and "merged directories" sections of the Linux kernel's overlayfs documentation describe; the
write-back, and a fuse-overlayfs mount, drop the marker files `.wh.*.opq`. The main theorem,
`SyncRuns.SyncIsMerge`, says that every interleaving of the walk, the dispatcher, the workers and their single
remote calls, with any tasks failing, leaves the merge, markers dropped, at every path not at or below a failed one.
A task is a sequence of remote calls; a failing one may change its whole subtree in any way.

**The job manager** (`JobManager`, `JobRuns`). A small-step state machine of the caller, the dispatcher and the
workers: the bounded channel, the mutex, the condition variable with its sleeping and waking, both wait
groups, and the counter of threads in use. All its theorems are about every reachable state or every run.

**Mounting and unmounting the layers** (`OverlayChange`, `OverlayMount`), **the volume records** (`VolumeStore`), **the node
service** (`NodeServer`, `NodeRuns`, `NodeLaws`), **the controller service** (`Controller`, `ControllerRuns`, `ControllerLaws`), and **paths and
configuration** (`Text`, `Lexical`, `ConfigMerge`, `MountPolicy`, `MountInfo`, `MountSearch`).

Code that works step by step is a method of a class or a loop, proved equal to a specification function;
the theorems are lemmas about those functions and the runs made of them. What a name, a key, a word or a line of
text means to the driver is also said by relations of its own (`OverlayLaws.HasMarkerName`, `ConfigMerge.Means`,
`MountPolicy.Lists`, `ControllerLaws.Yes`, `MountInfo.Describe`, `NodeLaws.AsksFor`), and proved to be what the code
makes of it. Calls that leave the driver are
parameters that say how the call ended.

## Where the code does less than it promises

The proofs turned up these; each has a lemma with the exact condition or an input, and the model keeps the
code as it is.

- The wait group is incremented after the job is sent, so its counter can be -1, where Go panics
  (`JobRuns.CounterCanBeNegative`, `JobRuns.WaitGroupCount`).
- A job that needs more threads than the limit is started if the manager is idle when its turn comes, and
  otherwise never (`JobRuns.OversizedNeedsIdleManager`); the second case is reachable
  (`JobRuns.OversizedCanWaitForever`).
- The flag of an opaque upper root has no effect, since the root is skipped; hence `WithPlainRoot` in
  `SyncRuns.SyncIsMerge`. The merge is then right iff the root's entries hide all of the lower layer
  (`SyncInOrder.PlainRootIff`, `SyncInOrder.OpaqueRootExample`).
- If mounting fails after the lower layer was mounted, or unmounting before it is unmounted, that layer stays
  mounted (`OverlayMount.LowerLeftBehind`). The next mount and unmount then delete the directory below the lower
  mount while it still shows the collection (`OverlayMount.UnmountEmptiesIff`, `OverlayMount.LeftoverLowerEmpties`).
- A file with a marker's name is shown by the kernel's driver, dropped by the write-back and then deleted with the
  upper layer; the write-back makes what was seen iff such files changed nothing (`OverlayMount.DroppedMarkersLoseIff`,
  `OverlayMount.DroppedMarkerExample`).
- The upper layer is deleted also when the write-back never started or a failing walk cut it short, which loses what it
  had not written (`OverlayMount.CutShortLosesIff`), and a deletion that stops half way can hide what was written back
  (`OverlayMount.PartialDeleteHidesIff`). With the emptied collection, these are all the ways in which the events of
  `OverlayMount.Event` lose something written as long as no task fails (`OverlayMount.SeenSurvivesIff`); a failing task
  loses what is at and below its path and nothing else (`OverlayMount.WrittenSurvives`).
- Without a key, `load` fills the table and then returns an error all the same, which the constructor ignores
  (`VolumeStore.LoadSaved`). An encrypted file shorter than a nonce crashes the
  start (`VolumeStore.CrashesOnShortFile`).
- The client's clean-up, and with it the write-back, can be skipped although a retry reports success: when the
  record was dropped by an attempt that then failed, and when an attempt failed with the path already unmounted,
  staged or not (`NodeRuns.RetryCleansUpIff`, `NodeRuns.UnstageRetryCleansUpIff`).
- Staging a static volume once more while it is mounted overwrites its record with an empty configuration, and the
  client is unmounted with that (`NodeRuns.RestageLosesConfig`).
- An unmount that fails after the path is gone leaves the gauge one too high (`NodeRuns.UnmountGauge`).
- CSI wants `CreateVolume` to be idempotent in the name; here the second call makes a second volume with the same
  directory, which goes when either is deleted (`ControllerRuns.SameNameClash`, `ControllerRuns.DeleteHarmlessIff`).
- A deletion that fails drops the record first, so that the retry answers success and the directory stays
  (`ControllerLaws.RetryRemovesIff`).
- A request to create a volume that is refused because its user is anonymous, or that fails to be saved, has made the
  directory already (`ControllerLaws.DirLeftIff`).
- Names such as ".", "..", "../x" and "a/.." put a volume's directory at, above or beside its root
  (`ControllerRuns.ChildIff`, `ControllerRuns.PlainChildIff`).
- A collection below a name that starts with two dots is refused even when the whitelist covers it
  (`MountPolicy.SubDirIff`), although the search for mount points gets this right (`MountSearch.CoversIff`).
- Normalising a key is not idempotent: "driver_" becomes "driver" and then "client"
  (`ConfigMerge.NormalizeTwice`, `ConfigMerge.DriverUnderscore`).

## Model

| member | source | states |
|---|---|---|
| Overlay.MergeIsView | pkg/client/irods/overlay.go:89-210 | the recursive merge of upper over lower shows, at every path, what the overlay rules say: whiteouts delete, files win, opaque directories hide, other directories unite; with marker files shown as the kernel does, or dropped as the write-back does |
| Overlay.MergeIdempotent | pkg/client/irods/overlay.go:89-210 | merging the same upper layer over its own result changes nothing |
| Overlay.OneLayerDecides | pkg/client/irods/overlay.go:248-513 | each path shows one layer alone: the lower one where the upper neither holds nor hides it, and otherwise the upper one whatever lies below |
| OverlayLaws.MarkerNameIff | pkg/client/irods/overlay.go:238-246 | the names taken for markers are those that begin with ".wh." and end with ".opq" |
| OverlayLaws.EntryShows | pkg/client/irods/overlay.go:134-195 | an entry of the upper layer, at any depth, shows itself at its path in the merge, and nothing below it unless it is a directory; of files and whiteouts only those named ".wh." and so on to ".opq" are dropped |
| OverlayLaws.LowerShows | pkg/client/irods/overlay.go:380-513 | where a directory of the upper layer has no entry of a name, or a dropped one, the lower layer shows with all below it, unless that directory or one above is opaque |
| OverlayChange.NoEffectIff | pkg/client/irods/mount.go:249-259 | an upper layer gives the lower one back iff it has no effect, read off entry by entry: whiteouts where nothing is, files already there, opaque directories that spell out what they hide |
| OverlayChange.HidesAllIff | pkg/client/irods/mount.go:221-237 | the lower layer makes no difference iff every entry of it is named in a directory that is not opaque, or lies below a whiteout, a file or an opaque directory |
| OverlayChange.SameOverIff | pkg/client/irods/mount.go:350-357 | what a deletion leaves of an upper layer shows the same as the whole iff each lost entry had no effect on what lies below it |
| OverlayChange.HidesNothingIff | pkg/client/irods/mount.go:255-259 | over what its write-back, markers dropped, made, a part of an upper layer shows what the whole did over the collection iff every opaque directory left, and every directory below one, has lost only what changed nothing, and elsewhere only entries whose markers changed nothing are lost |
| OverlayChange.MarkersIdleIff | pkg/client/irods/overlay.go:157-159 | the write-back makes what the mount shows iff every marker file in the upper layer had no effect on what lies below it |
| Walk.Walker.WalkDir | pkg/client/irods/overlay.go:113-198 | the walk with its mutable current directory queues exactly the jobs and barriers of the entries in walk order |
| Walk.Walker.Visited | pkg/client/irods/overlay.go:115-196 | one visit appends the barrier if the parent changed and then the entry's job, none for the root or an ignored file |
| Walk.VisitsTopDown | pkg/client/irods/overlay.go:198-201 | every visit is at or below the start, none is at or above an earlier one, so none is repeated, and the directories above a visit were visited before it |
| Walk.PlanIsWellQueued | pkg/client/irods/overlay.go:113-196 | for every upper tree: no job is for a path at or above an earlier job's, the directories above a job have had their own jobs before it, and jobs with no barrier between them have one parent directory |
| Walk.EpochsAreDisjoint | pkg/client/irods/overlay.go:120-132 | two tasks with no barrier between them have one parent directory and paths neither of which leads to the other, and every task is parted by a barrier from every task below it |
| Walk.SiblingsUnparted | pkg/client/irods/overlay.go:118-132 | entries of one directory visited one after the other are queued with no barrier between them |
| SyncClient.IrodsFs.SyncWhiteout | pkg/client/irods/overlay.go:248-314 | if it reports success the whole subtree is gone and nothing else changed; if it fails only that subtree may have |
| SyncClient.IrodsFs.SyncFile | pkg/client/irods/overlay.go:316-378 | success leaves the file alone at its path, also where a directory stood; a failure touches only its subtree |
| SyncClient.IrodsFs.SyncDir | pkg/client/irods/overlay.go:380-491 | success leaves a directory: made, put in place of a file, merged, or emptied if its flag was read as opaque; an unreadable flag counts as not set; a failure touches only its subtree and missing directories above |
| SyncClient.IrodsFs.ClearDirEntries | pkg/client/irods/overlay.go:493-514 | deleting the listed entries one by one, in any order, removes all that is below the directory and keeps it |
| SyncTasks.ListingEmpties | pkg/client/irods/overlay.go:493-514 | removing what a listing names removes everything strictly below the directory, for any order of the listing |
| SyncTasks.StepKeepsRest | pkg/client/irods/overlay.go:248-513 | at every point inside a task, doing the rest of its calls gives the same tree as before the last call |
| SyncTasks.ApplyAt | pkg/client/irods/overlay.go:248-513 | what each task leaves at every path: outside its subtree what was there, at its own path its own node, and below it nothing unless it merges a directory |
| SyncTasks.ApplyIsLocal | pkg/client/irods/overlay.go:248-513 | a task whose parent directory is there changes nothing outside its subtree and leaves a proper tree |
| SyncTasks.RestIsLocal | pkg/client/irods/overlay.go:248-513 | what a task still has to do to its subtree depends on that subtree alone, from any point inside it, which is why tasks with separate subtrees commute |
| SyncInOrder.InOrderIsMerge | pkg/client/irods/overlay.go:113-210 | doing the queued jobs one after the other turns the lower tree into the merged overlay |
| SyncInOrder.PlainRootIff | pkg/client/irods/overlay.go:134-138 | ignoring the root's opaque flag gives the merged overlay iff the root is not opaque or its entries hide all of the lower layer |
| SyncInOrder.OpaqueRootExample | pkg/client/irods/overlay.go:134-138 | an upper root and a lower file that stays although the root hides it |
| SyncInOrder.EntryMerges | pkg/client/irods/overlay.go:134-195 | the jobs of one upper entry and everything below it merge that subtree and leave the rest alone |
| SyncRace.CallKeeps | pkg/client/irods/overlay.go:140-193 | a remote call of one running task keeps every other running task on course to what the in-order replay leaves |
| SyncRace.FailKeeps | pkg/client/irods/overlay.go:140-193 | so does a failing task, whatever it does to its own subtree |
| SyncRace.LaunchKeeps | pkg/client/irods/parallel.go:153-207 | so does starting the next job, because the barriers keep it apart from all that still run |
| SyncRuns.RunIsInOrder | pkg/client/irods/parallel.go:146-215 | for any well queued plan, every interleaving ends, except at and below failed paths, as doing the jobs one by one does |
| SyncRuns.SyncIsMerge | pkg/client/irods/overlay.go:89-210 | for every upper and lower tree, every interleaving and every set of failing tasks: all jobs were accepted, Wait returns no error, and every path not at or below a failed one is as the merged overlay shows it |
| SyncRuns.EntryIsWritten | pkg/client/irods/overlay.go:134-195 | read entry by entry: at the end of a run the collection has at the path of every entry of the upper layer what that entry asks for, a marker's name excepted, where it has what the lower layer had, failed paths aside |
| SyncRuns.AtMostFour | pkg/client/irods/overlay.go:55-55 | at every moment the running tasks need at most four threads together |
| SyncRuns.SyncWithoutFailures | pkg/client/irods/overlay.go:89-210 | with no failing task the whole remote tree is the merged overlay |
| SyncRuns.SyncTwice | pkg/client/irods/overlay.go:89-210 | replaying the same upper layer on its own result changes nothing, whatever the two interleavings |
| SyncRuns.SyncFrame | pkg/client/irods/overlay.go:248-513 | a lower path that the upper layer neither holds nor hides is untouched by every run |
| SyncMidway.MidwayFrame | pkg/client/irods/overlay.go:248-513 | at every moment of every run, with any tasks part way through or failed, a path where the lower layer shows and that is not at or below a failed one holds what it held at the start |
| SyncMidway.MidwayShows | pkg/client/irods/overlay.go:89-210 | so a write-back stopped at any moment has lost nothing while the upper layer is still there: over the store as it is then it shows, at every path not at or below a failed one, what it showed before |
| SyncMidway.RootStays | pkg/client/irods/overlay.go:134-138 | the collection itself is a directory at every moment |
| SyncRuns.AllJobsDone | pkg/client/irods/overlay.go:203-209 | when Wait has returned every job has been through its task |
| SyncRuns.SyncNeverStuck | pkg/client/irods/overlay.go:198-209 | until everything is over some thread or remote call can proceed, and without failures one other than a failure |
| SyncRuns.SyncCanFinish | pkg/client/irods/overlay.go:89-210 | every write-back can be run to its end without a failure, and then leaves the merged overlay |
| SyncRuns.EverySyncEnds | pkg/client/irods/overlay.go:198-209 | there is no infinite run of a write-back |
| JobManager.StepKeeps | pkg/client/irods/parallel.go:81-215 | every step of every thread keeps the manager's invariant: queue, counters, errors, skipped jobs, barriers, budget, wakeups |
| JobRuns.BarrierSafety | pkg/client/irods/parallel.go:153-211 | in every run, when a job behind a barrier has started, every job before the barrier is done, also when errors made the barrier itself be skipped |
| JobRuns.ThreadBudget | pkg/client/irods/parallel.go:151-200 | the threads in use are always the sum over active jobs, and above the limit only for one oversized job that runs alone |
| JobRuns.WaitGroupCount | pkg/client/irods/parallel.go:95-96 | the counter is what was sent and not retired, less a send not yet added; it is -1 exactly when such a send is all there is |
| JobRuns.CounterCanBeNegative | pkg/client/irods/parallel.go:95-96 | a run of one job in which the counter is -1 |
| JobRuns.WaitMeansDone | pkg/client/irods/parallel.go:128-143 | when Wait returns after DoneScheduling every accepted job is retired, and it returned nil iff every one ran and returned nil |
| JobRuns.WaitReportsErrors | pkg/client/irods/parallel.go:128-143 | Wait returns nil iff no task in the run returned an error, and then every request was accepted and has run |
| JobRuns.NothingStartsAfterError | pkg/client/irods/parallel.go:81-160 | from an error on, in every continuation, no job is accepted, and none starts but the one the dispatcher had already let through |
| JobRuns.ScheduleBlocksIff | pkg/client/irods/parallel.go:55-64 | at most 100 jobs wait in the channel, and scheduling blocks on it iff there are 100 |
| JobRuns.TwoCanRunAtOnce | pkg/client/irods/parallel.go:163-183 | with limit four, any two jobs that need at most four threads together, the second no barrier, reach a state in which both run |
| JobRuns.TasksReturnOnce | pkg/client/irods/parallel.go:185-211 | in every run each task returns at most once: exactly once if its job is over, never if it was skipped |
| JobRuns.SleeperWillBeWoken | pkg/client/irods/parallel.go:163-206 | no lost wakeup: when the dispatcher sleeps and could go on, a worker is between its subtraction and its broadcast; when it could not, one is running |
| JobRuns.NoDeadlock | pkg/client/irods/parallel.go:146-215 | with requests within the limit some thread can move until all is over |
| JobRuns.EveryStepCounts | pkg/client/irods/parallel.go:81-215 | every step uses up a measure, a wakeup that finds it must sleep again included |
| JobRuns.EveryRunEnds | pkg/client/irods/parallel.go:81-215 | a run of n requests takes at most 24n + 5 steps and can stop only when all jobs are retired and every thread has left |
| JobRuns.OversizedNeedsIdleManager | pkg/client/irods/parallel.go:163-171 | an oversized job starts next if the manager is idle when its turn comes, and in no continuation at all if it is not |
| JobRuns.OversizedCanWaitForever | pkg/client/irods/parallel.go:163-171 | a run with limit four that schedules a job of one thread and one of five reaches a state from which the second is never launched |
| OverlayMount.OverlayVolume.Mount | pkg/client/irods/mount.go:63-190 | the layers, mounts and directories each way of mounting or failing leaves |
| OverlayMount.OverlayVolume.Unmount | pkg/client/irods/mount.go:192-283 | the same for unmounting: target first, then the lower layer, then the write-back is begun; what follows from that is `OverlayMount.UnmountBeginsSync` |
| OverlayMount.OverlayVolume.SyncAndDelete | pkg/client/irods/mount.go:239-260 | the background part leaves the volume in order; when no task fails it keeps what the volume showed iff it is not one of the losing ways to end, and otherwise, in the other ways to end, keeps it at every path not at or below a failed one |
| OverlayMount.UnmountBeginsSync | pkg/client/irods/mount.go:239-260 | a successful unmount leaves the volume unmounted with its upper layer as it was and a write-back begun that can be brought to its end, and nothing but that end or a restart can happen to the volume next |
| OverlayMount.SyncMerges | pkg/client/irods/mount.go:245-259 | a write-back that finishes without a failure, whose upper layer is deleted, makes the collection the merge of that layer, markers dropped, over what it was |
| OverlayMount.WriteReachesCollection | pkg/client/irods/mount.go:63-263 | mount, write, unmount, no step failing: the write-back can finish, and whenever it ends well the collection is the merge of what was written over what it was, emptied before if a lower mount was left over, and nothing else of the volume has changed |
| OverlayMount.SyncLeavesMerge | pkg/client/irods/mount.go:334-348 | a finished write-back leaves the merge, markers dropped, at every path not at or below a failed one |
| OverlayMount.SyncKeepsShowing | pkg/client/irods/mount.go:334-348 | finished or stopped anywhere, it leaves a collection over which the upper layer shows what it showed, failed paths aside |
| OverlayMount.SeenSurvivesIff | pkg/client/irods/mount.go:63-263 | through any number of mounts, writes, unmounts, write-backs and restarts, each failing or stopped at any point but without failing tasks: the volume shows at every point what the last write left iff no unmount empties a collection that shows through, no write-back that was cut short is followed by deleting what still mattered, and after no finished one the deletion takes a marker that changed something or leaves a part that hides what was written |
| OverlayMount.WrittenSurvives | pkg/client/irods/mount.go:63-263 | in a run without such an event, with any tasks failing, the volume shows at the end what the last write left, at every path not at or below a failed one |
| OverlayMount.UnmountEmptiesIff | pkg/client/irods/mount.go:221-237 | unmounting empties a collection that holds something iff it succeeds with the lower layer mounted more than once |
| OverlayMount.CollectionKeptIff | pkg/client/irods/mount.go:192-263 | in every run only write-backs, whole or stopped, change the collection iff no unmount succeeds while the lower layer of a collection that holds something is mounted more than once |
| OverlayMount.LeftoverLowerEmpties | pkg/client/irods/mount.go:85-110 | a mount and an unmount that both succeed empty the collection iff the lower layer was left mounted before |
| OverlayMount.LowerLeftBehind | pkg/client/irods/mount.go:93-110 | exactly which failed mounts and unmounts leave the lower layer mounted under an unmounted volume |
| OverlayMount.CutShortLosesIff | pkg/client/irods/mount.go:245-259 | a write-back that never started or was cut short, after which the upper layer is deleted, keeps what the user saw iff the upper layer had no effect on what the collection then was |
| OverlayMount.DroppedMarkersLoseIff | pkg/client/irods/mount.go:245-259 | a finished write-back after which the upper layer is deleted keeps what the user saw iff the marker files in it, which it drops, changed nothing |
| OverlayMount.DroppedMarkerExample | pkg/client/irods/overlay.go:238-246 | under the kernel's driver a new file named .wh.a.opq is lost |
| OverlayMount.PartialDeleteHidesIff | pkg/client/irods/mount.go:255-259 | after a finished write-back, a part of the upper layer left by its deletion keeps what the user saw iff it hides nothing in that sense |
| OverlayMount.PartialDeleteExample | pkg/client/irods/mount.go:255-259 | an upper layer and a part of it for which that fails |
| VolumeStore.GetEncryptionKey | pkg/volumeinfo/encrypt.go:10-16 | a fresh buffer of 32 bytes: a short key followed by zeros, or the first 32 bytes of a long one |
| VolumeStore.AesKeyIs | pkg/volumeinfo/encrypt.go:10-16 | the same of the key the cipher gets, byte for byte of the key given |
| VolumeStore.SameAesKey | pkg/volumeinfo/encrypt.go:10-16 | the cipher gets the same key iff the bytes of the two agree up to the 32nd, a missing byte counting as zero, and then what one encrypted the other decrypts |
| VolumeStore.DecryptEncrypted | pkg/volumeinfo/encrypt.go:18-70 | all that encrypt writes is long enough for decrypt to split, and decrypts to what went in |
| VolumeStore.LoadSaved | pkg/volumeinfo/node_volume.go:65-152 | load reads back exactly the table save wrote, encrypted or not, and returns an error exactly when it was not encrypted |
| VolumeStore.SavedIs | pkg/volumeinfo/encrypt.go:18-41 | with a key a saved file is a nonce of 12 bytes and the sealed table, which the key as cut or padded opens; without one it is the table |
| VolumeStore.WrongKeyFindsNothing | pkg/volumeinfo/encrypt.go:43-70 | if Open fails under a wrong key, a manager started with a key that does not agree on the first 32 bytes loads an error and no volumes |
| VolumeStore.LoadInventsNothing | pkg/volumeinfo/node_volume.go:95-152 | load finds no volumes but those in the text of the file, and reports no error only if there was no text or it was read |
| VolumeStore.VolumeManager.Put | pkg/volumeinfo/node_volume.go:166-174 | the table has the new record, and if the save succeeded the file holds the table |
| VolumeStore.VolumeManager.Pop | pkg/volumeinfo/node_volume.go:176-188 | returns the record and drops it, in memory also when saving fails; nothing happens to an unknown one |
| VolumeStore.RunRefinesMap | pkg/volumeinfo/controller_volume.go:38-182 | any operations and restarts whose saves succeed act on the table as on a plain map |
| VolumeStore.ManagerIsPlainMap | pkg/volumeinfo/controller_volume.go:38-182 | so from a fresh start, and a restart would find that map again |
| VolumeStore.CrashesOnShortFile | pkg/volumeinfo/encrypt.go:57-61 | a start crashes iff there is a key and the file is shorter than a nonce |
| NodeServer.Driver.NodeStageVolume | pkg/driver/node.go:52-160 | records, mounts, gauge and client calls after it, for every way its calls can end |
| NodeServer.Driver.NodePublishVolume | pkg/driver/node.go:163-305 | the same for static and dynamic publishing |
| NodeServer.Driver.NodeUnpublishVolume | pkg/driver/node.go:308-394 | the same for unpublishing: lost records, bind mounts and clients |
| NodeServer.Driver.NodeUnstageVolume | pkg/driver/node.go:397-466 | the same for unstaging, whose record is dropped first |
| NodeServer.Driver.MountClient | pkg/client/client.go:19-62 | a success mounts the path and raises the gauge, a failure raises nothing |
| NodeServer.Driver.UnmountClient | pkg/client/client.go:65-104 | a success unmounts the path, lowers the gauge and has the client clean up; a failure does neither, though the path may be gone |
| NodeServer.ClientTypeIff | pkg/client/common/common.go:26-59 | only "webdav" and "nfs", in any letter case, ask for another client than that of iRODS, and so a configuration without the key does not |
| NodeLaws.StageDoneIff | pkg/driver/node.go:52-160 | exactly when staging succeeds; refused or failed before it saves, it leaves the records |
| NodeLaws.PublishDoneIff | pkg/driver/node.go:163-305 | the same for publishing |
| NodeLaws.UnpublishDoneIff | pkg/driver/node.go:308-394 | exactly when unpublishing succeeds |
| NodeLaws.UnstageDoneIff | pkg/driver/node.go:397-466 | exactly when unstaging succeeds |
| NodeLaws.StaticCycle | pkg/driver/node.go:52-466 | stage, publish, unpublish and unstage of a static volume, no call failing: the client the configuration asks for is mounted at the path, unmounted with the same configuration and cleaned up, and of the volume nothing is left in the records, the mounts and the gauge |
| NodeLaws.DynamicCycle | pkg/driver/node.go:52-466 | the same for a dynamic volume: staging mounts the client, publishing binds it, unpublishing and unstaging take them back |
| NodeRuns.GaugeAgrees | pkg/driver/node.go:134-461 | in every ordered run without a restart or a half-done unmount, in which saves succeed and failed mounts leave nothing mounted, the gauge is the number of paths held mounted, whichever mounts, unmounts, probes and removals fail |
| NodeRuns.GaugeAccount | pkg/driver/node.go:52-466 | in every run whatever, the gauge less the number of paths held mounted grows by one for each half-done unmount and shrinks by one for each failed mount that stays and each dynamic publish that fails once bound, a restart setting the gauge to zero |
| NodeRuns.UnmountGauge | pkg/client/irods/mount.go:214-228 | an unmount keeps that iff it does not fail with the path gone |
| NodeRuns.ConfigFidelity | pkg/driver/node.go:141-457 | in every ordered run whose saves succeed, with restarts that load the saved file, each UnmountClient call gets the client type and configuration of the last successful MountClient call for its volume |
| NodeRuns.RestageLosesConfig | pkg/driver/node.go:61-84 | after staging a static volume once more, unpublishing it hands its client what it was mounted with iff the path is not mounted or that was an iRODS client with no settings |
| NodeRuns.RequestByCalls | pkg/driver/node.go:52-466 | what a request does to the records and their file is a sequence of Put and Pop calls of the volume manager |
| NodeRuns.DurableKept | pkg/volumeinfo/node_volume.go:43-63 | after every event the file loads as the records, so that a restart changes nothing but the gauge |
| NodeRuns.StagedRecordsStay | pkg/driver/node.go:316-417 | if a run, restarts included, ends without a record that staging made, it unstaged that volume |
| NodeRuns.UnpublishIdempotent | pkg/driver/node.go:308-394 | after a success a repetition changes nothing, and succeeds iff the path can be probed |
| NodeRuns.UnstageIdempotent | pkg/driver/node.go:397-466 | after a success a repetition changes nothing and succeeds iff the path is given, can be probed and is not mounted, which holds for dynamic volumes |
| NodeRuns.UnpublishConverges | pkg/driver/node.go:308-394 | whatever came of an attempt, a retry whose calls succeed leaves the path unmounted and the gauge lowered by what was mounted |
| NodeRuns.UnstageConverges | pkg/driver/node.go:397-466 | the same for unstaging, whose record the first attempt dropped, the gauge included |
| NodeRuns.RetryCleansUpIff | pkg/driver/node.go:316-394 | for a static volume an attempt and a retry that succeeds unmount the path, and its client cleaned up iff the attempt called it and the unmount was done, or the volume was staged and the attempt left the path mounted |
| NodeRuns.UnstageRetryCleansUpIff | pkg/driver/node.go:405-463 | for a dynamic volume, whose record is dropped first, iff the first attempt went through |
| Controller.GetControllerConfigFromMap | pkg/driver/config.go:74-104 | reads the parameters in any order of the map with one result, and none if any is malformed; what the words mean is `ControllerLaws.CreateIs` |
| Controller.MakeControllerConfig | pkg/driver/config.go:107-134 | without a directory of its own a volume is its root and retains its data; otherwise its path is the root, a slash and the name |
| Controller.Service.CreateVolume | pkg/driver/controller.go:49-156 | the records, the collections and the calls after it, for every way it can end |
| Controller.Service.DeleteVolume | pkg/driver/controller.go:159-188 | the same for deletion |
| ControllerLaws.CreateIs | pkg/driver/controller.go:49-156 | a request with no name, wrong capabilities, another client, no root path, one that is not absolute or all slashes, or a flag that is not one of the twelve words changes nothing; any other succeeds iff the user is not anonymous and no call fails, and then the volume is recorded with the root less its trailing slashes, its path, and retaining its data iff either flag says yes |
| ControllerLaws.UnclearIsRefused | pkg/driver/config.go:86-97 | any other word than those for yes and no, in either flag, makes the request change nothing |
| ControllerLaws.DirLeftIff | pkg/driver/controller.go:107-149 | a request that does not succeed has made a directory all the same iff one was asked for and made before the user proved anonymous or saving failed |
| ControllerLaws.KeptAsAsked | pkg/driver/config.go:86-129 | if a request says yes to retain_data or no_volume_dir, no run ever removes anything for its volume |
| ControllerLaws.RemovedAsAsked | pkg/driver/controller.go:159-185 | if it says no to both, or does not say, and succeeds, the first deletion whose save succeeds, whatever happened in between, removes the directory that was made for it |
| ControllerLaws.RetryRemovesIff | pkg/driver/controller.go:166-184 | after a deletion and its retry, which always reports success and does nothing, the directory is gone iff the first one saved and the removal took it |
| ControllerRuns.DeletionConfined | pkg/driver/controller.go:91-185 | in every run, restarts after successful saves included, a volume is removed at most once, and what is removed is the directory of a requested volume that does not retain its data; with an ordinary name, the child of its root of that name |
| ControllerRuns.StepKeepsDurable | pkg/volumeinfo/controller_volume.go:38-146 | after every event the file loads as the volumes unless the last save failed, so that a restart then changes nothing |
| ControllerRuns.RetainedNeverRemoved | pkg/driver/config.go:124-129 | nothing is ever removed for a volume that retains its data or has no directory of its own |
| ControllerRuns.ChildIff | pkg/driver/config.go:130-131 | for every name: the volume's path is the root, up by the steps the cleaned name climbs and down by the names it then has, and lies strictly below the root iff that way down begins with the names left above and goes on |
| ControllerRuns.PlainChildIff | pkg/driver/config.go:130-131 | of names without a slash, exactly the ordinary ones put the volume strictly below its root, as the child of that name |
| ControllerRuns.DeleteHarmlessIff | pkg/driver/controller.go:178-184 | a deletion leaves the other volumes' directories iff none of them is at or below the deleted one |
| ControllerRuns.DirectoriesStay | pkg/driver/controller.go:91-185 | with one root and different ordinary names every recorded volume keeps its directory throughout the run |
| ControllerRuns.SameNameClash | pkg/driver/controller.go:55-99 | two creations of one name share a directory, and deleting the first takes it from the second |
| ConfigMerge.MergeConfig | pkg/common/config.go:53-83 | for every key: own settings, then driver secrets, volume parameters and volume secrets decide; within a layer any of the colliding keys |
| ConfigMerge.MergeLaw | pkg/common/config.go:53-83 | the same by the meaning of keys: for a name, the driver's own setting; else what some key that spells the name has in the driver's secrets; else in the volume's parameters; else in its secrets; else nothing |
| ConfigMerge.NormalizeIff | pkg/common/config.go:42-50 | a key is normalised to the name it spells in any letter case and with any underscores, "driver" without underscores standing for "client" |
| ConfigMerge.CamelKeys | pkg/common/config.go:42-50 | for example "retainData" and "mountPathWhitelist" spell the names the code looks up |
| ConfigMerge.NormalizeTwice | pkg/common/config.go:42-50 | normalising again changes a key iff it became "driver" |
| ConfigMerge.DriverUnderscore | pkg/common/config.go:42-50 | "driver_" is a key for which it does |
| ConfigMerge.MergedKeysAreNormal | pkg/common/config.go:53-83 | all keys of a merged configuration are normal, "driver" aside |
| MountPolicy.GetConfigMountPathWhitelist | pkg/client/common/common.go:66-83 | the items of the list, and everything if there is no list; what the items are is `MountPolicy.ListedItems` |
| MountPolicy.ListedItems | pkg/client/common/common.go:69-79 | a text that lists items between commas, white space around them or not, is read as those items, a blank one as "/" |
| MountPolicy.JoinLists | pkg/client/common/common.go:69-79 | items without white space around them are listed by joining them with commas |
| MountPolicy.SomeListed | pkg/client/common/common.go:69-79 | every text lists some items, so that what holds of listed items holds of every whitelist |
| Text.AsciiSpace | pkg/client/common/common.go:71-71 | the ASCII characters that are trimmed are the blank and the five controls from tab to carriage return |
| MountPolicy.CheckMappings | pkg/client/irods/connection_info.go:335-340 | accepts iff every mapping is allowed by the whitelist of the configuration |
| MountPolicy.SubDirIff | pkg/mounter/whitelist.go:8-18 | for all strings: true iff the cleaned parent is a component prefix of the cleaned path and the first name left does not start with two dots |
| MountPolicy.AllowedIff | pkg/mounter/whitelist.go:21-29 | allowed iff that holds of some item |
| MountPolicy.DefaultAllows | pkg/client/common/common.go:82-82 | without a list, or with an empty one: exactly the absolute paths whose first name does not start with two dots |
| MountPolicy.WhitelistHolds | pkg/common/config.go:68-72 | if the driver's secrets set a non-empty whitelist, every accepted mapping lies at or below an item listed in one they set, whatever a volume's parameters and secrets are |
| MountPolicy.WhitelistDecides | pkg/common/config.go:68-72 | if they set just one, which lists some items, the mappings are accepted iff each lies at or below one of these and the first name on the way down does not start with two dots |
| Lexical.CleanIdempotent | pkg/mounter/whitelist.go:8-12 | cleaning a path again changes nothing |
| Lexical.CleanSkips | pkg/mounter/whitelist.go:8-12 | empty parts and dots of a path do not matter |
| Lexical.CleanPops | pkg/mounter/whitelist.go:8-12 | nor does a name followed by a step up |
| Lexical.CleanStopsAtRoot | pkg/mounter/whitelist.go:8-12 | nor a step up from the root |
| Lexical.CleanKeeps | pkg/mounter/whitelist.go:8-12 | names after the root, and names after steps up, are what they are |
| Lexical.RelStarts | pkg/mounter/whitelist.go:9-14 | how a relative path starts tells whether the target is the base, below it, or elsewhere |
| MountInfo.ParseMountInfo | pkg/mounter/mount_helper_unix.go:90-154 | the loop over lines and the one over optional fields compute the table, or fail |
| MountInfo.ParseFieldsIff | pkg/mounter/mount_helper_unix.go:103-151 | a line is read as an entry iff its fields describe the entry: two numbers, a device, root and mount point, options, any fields up to the first dash, and three more |
| MountInfo.ParseByLine | pkg/mounter/mount_helper_unix.go:98-102 | a text is read line by line, empty lines left out, and fails if a line does |
| MountInfo.LastLine | pkg/mounter/mount_helper_unix.go:98-102 | the last line need not be ended |
| Text.FieldsRule | pkg/mounter/mount_helper_unix.go:103-104 | white space before a field is left out, and the field ends at the next |
| Text.AtoiDigit | pkg/mounter/mount_helper_unix.go:107-128 | numbers are read digit by digit as long as they fit 64 bits |
| Text.AtoiSign | pkg/mounter/mount_helper_unix.go:107-128 | a sign before the digits negates or keeps the number; only the lowest one needs its minus to fit |
| Text.AtoiRefuses | pkg/mounter/mount_helper_unix.go:107-128 | nothing but digits with at most one sign before them is a number |
| MountInfo.RoundTrip | pkg/mounter/mount_helper_unix.go:98-153 | every table of printable entries, laid out as proc(5) has it with any number of optional fields, is parsed back |
| MountInfo.ParsedIsPrintable | pkg/mounter/mount_helper_unix.go:103-151 | the parser yields printable entries only, so the round trip covers all it can yield |
| MountInfo.AcceptedTablesRoundTrip | pkg/mounter/mount_helper_unix.go:98-153 | an accepted text and the layout of what was read mean the same |
| MountSearch.SearchMountPoints | pkg/mounter/mounter.go:386-427 | succeeds iff the last entry covering the path yields a root path and a device, and then returns that entry's references in table order |
| MountSearch.RefsExactly | pkg/mounter/mounter.go:416-424 | the references are, in table order, the mount points of exactly the other entries with that device whose root is the path that is looked for |
| MountSearch.CoversIff | pkg/mounter/mounter.go:401-401 | for an absolute path, covering is lying at or below the mount point |
| MountSearch.RootPathNames | pkg/mounter/mounter.go:404-404 | the root path that is compared has below the mount's root the names the path has below its mount point; for an absolute root it is just the text of those names |

## Left out

- `currentThreads -= ...` outside the mutex (pkg/client/irods/parallel.go:200) is one atomic step; the data race itself is not modelled.
- The job manager is a state machine on values, since it is about the interleaving of threads; where Go would panic on a negative wait group the model counts on.
- Mapping local to iRODS paths is the identity on relative paths, as with a single `path`; mappings with several entries and read-only virtual directories are not modelled.
- The status file of a write-back and the log are taken to lie outside the synced tree.
- The early return of Sync for an empty upper layer, which changes nothing, and the dispatcher that its early error returns leave behind.
- A write-back that still runs when the volume is mounted again.
- OverlayMount.SeenSurvivesIff: is about runs in which no single task of a write-back fails; `OverlayMount.WrittenSurvives` is about the others.
- SyncClient.IrodsFs.SyncDir: an opaque flag that cannot be read is modelled there only; in whole runs reading it works.
- fuse-overlayfs hides every name that begins with `.wh.`; of those only the marker files are modelled.
- A restart after a failed save, which finds whatever that save left in the file.
- Symbolic links, permissions, extended attributes other than the opaque flag, and `.wh.name` files, which the code does not treat as whiteouts.
- AES-GCM and JSON: `VolumeStore.Authenticated`, where it is named, assumes that Open fails under another key; `VolumeStore.Lawful` assumes that Open undoes Seal and Unmarshal undoes Marshal, and that JSON text is never empty.
- Errors of stat and read when a save file is loaded; concurrent callers of a volume manager, which its mutex makes sequential.
- IsLikelyNotMountPoint and GetDeviceName are taken to see exactly the mounts the driver made; counters other than the gauge of active mounts.
- NodeServer.Driver.MountClient: does not model what each client type does inside, but as an oracle; for overlay volumes `OverlayMount` has it.
- Parsing of connection parameters other than the client type, the controller's keys and the whitelist; that several mappings can come from different keys.
- ConfigMerge.NormalizeTwice: lower-casing is that of ASCII letters; other letters that have a lower case are kept.
- Lexical.RelStarts: where Go's Rel returns an error or a path that starts with "..", depending on how two paths above the working directory differ, the model may return the other of the two; both mean "not below".
- MountInfo.ParseMountInfo: reading the file until two reads agree is not modelled, nor text that is not valid UTF-8.
- MountSearch.SearchMountPoints: takes the parsed table; the resolution of symbolic links before it is not modelled.
- WebDAV and NFS clients, the Prometheus and gRPC servers, endpoint parsing, kernel version checks and mount option strings.
