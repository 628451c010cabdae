# ix-csi in Dafny

ix-csi is a Kubernetes storage driver for TrueNAS. This project models the parts of it that have to survive
concurrency, partial failure and retry, and proves what they guarantee.

| area | modules |
|---|---|
| The WebSocket/JSON-RPC client: callers, read loops, ping loops, disconnect handling, one reconnect loop and Close over shared fields, as a transition system of atomic sections | `ClientCore`, `ClientSteps`, `ClientInvariants`, `ClientProtocol`, `ClientProgress`, `ClientRecovery`, `ClientLoops` |
| The node: slave graphs, bind-mount chains, discovery of a volume's transport, unstaging, and all interleavings of the node operations under the per-volume lock | `PathText`, `BlockDevices`, `MountTable`, `VolumeNames`, `NodeDiscovery`, `NodeIdentity`, `NodeUnstage`, `NodeLifecycle`, `NodeOperations`, `NodeRefinement` |
| Snapshots and clones on a ZFS-like server with deferred destroy | `ZfsPool`, `SnapshotSafety`, `SnapshotController` |
| Detached snapshots encoded as dataset paths | `DetachedPaths`, `DetachedOverlap`, `DetachedSnapshots`, `DetachedServer` |
| Provisioning with compensation, iSCSI chain repair, NVMe-oF cleanup | `Backend`, `Provisioning`, `IscsiProvisioning`, `NvmeProvisioning`, `IscsiTables`, `IscsiRepair`, `NVMeCleanup` |
| Pages of ListSnapshots, capacity gauges | `Pagination`, `Gauges` |

`dafny verify dfyconfig.toml` checks everything.

Code that changes shared tables step by step is a class whose methods are proved against functions on the
value of the tables. How a call to the storage server or a command on the node ends is up to the environment: it is a
parameter of the operation, or it is restricted by a constant of the server that says which calls may fail. A call
that fails may have had its effect. Where a constant excludes a failure, the contract says what must then be achieved.
Concurrency is a transition system whose runs are sequences of states, and the theorems are about every state of
every run.

Seven findings are stated as lemmas next to the property they limit, each with the condition under which the
property does hold:

- A connection that fails before the reconnect loop that made it has cleared its flag is not replaced: the goroutine
  that tears it down finds the flag set, and then the loop clears it (`LostWhileReconnecting`). Otherwise an open
  client that has lost its connection has a reconnect loop or a goroutine that will start one: `DownIsRecovering` and
  `StrandsExactly` say that it loses both exactly when a loop clears the flag while the client is disconnected, which
  a loop also does when it has used up its attempts. A stranded client stays without a connection until somebody calls
  Connect or Close (`StrandedForGood`).
- A connection can be installed after Close has returned (`ConnectedAfterClose`), exactly when a dial is past its look
  at `closed` (`ShutDownForGood`, `LateDialConnects`).
- Cloning a volume leaves its private snapshot on the source, which then cannot be deleted, exactly when the call that
  creates it fails after its effect or the call that drops it fails (`PrivateSnapshotLeftBehind`).
- CreateSnapshot can return a snapshot that already waits for deferred destroy and later disappears
  (`FoundSnapshotCanVanish`); a returned snapshot survives exactly when it was created by that call or was found
  protected and not deferred (`ReturnedSnapshotSurvives`).
- The overlap test of dataset paths trims blanks. Of a dataset and one beneath it, it reports the overlap exactly
  unless the outer path trims to nothing or its last component is text followed by a blank (`OverlapOfNested`,
  with the input in `OverlapMisses`). `ValidatedIsDisjoint` says exactly which accepted pairs share a subtree, and
  `SafeParent` exactly which detached roots are safe with every volume.
- Deleting a detached snapshot also deletes those whose ID extends its own, and no others (`DeletionReach`,
  `DeletionReachesNested`).
- A target whose name or base has a colon can be taken for another volume's (`TargetCanBeMistaken`);
  `BelongsByName` says exactly when, and names without a colon are safe.

`docs/detached-snapshots.md` promises that source and target paths that overlap the detached root are rejected; the
code misses those that `OverlapOfNested` describes, and the model follows the code.

## Model

| member | source | states |
|---|---|---|
| `ClientCore.Client.InstallConnection` | pkg/client/client.go:396-401 | a dialled connection and its done channel become current together, under a number never used before |
| `ClientCore.Client.TearDown` | pkg/client/client.go:484-498 | the locked section of handleDisconnect: only the current connection is torn down, its done channel closed and cleared |
| `ClientCore.Client.CloseCurrent` | pkg/client/client.go:766-772 | the locked section of Close: the done channel is closed but stays set |
| `ClientCore.Client.SwapClosed` | pkg/client/client.go:758-760 | closed is set once and the caller learns whether it was first |
| `ClientCore.Client.ClaimReconnect` | pkg/client/client.go:518-520 | one winner of the reconnect flag |
| `ClientCore.Client.RegisterCall` | pkg/client/client.go:724-734 | a fresh request ID enters pending |
| `ClientCore.Client.LoadAndDelete` | pkg/client/client.go:437-437 | the remover of a pending request is unique |
| `ClientCore.Client.SendOrDrop` | pkg/client/client.go:438-442 | a full reply channel drops the message |
| `ClientProtocol.InvKept` | pkg/client/client.go:411-520 | every atomic section of every goroutine keeps the invariant, whatever the server and the network do |
| `ClientProtocol.NoReplyLost` | pkg/client/client.go:724-753 | a waiting call is still pending, or its channel holds a message, or the goroutine that removed it is about to send |
| `ClientProtocol.NoReplyCrossed` | pkg/client/client.go:437-443 | what a call receives is connection-lost or carries its own ID, and with a server that answers on the request's connection it came over the connection the call used |
| `ClientProtocol.IdsAreUnique` | pkg/client/client.go:724-734 | two calls never share a request ID |
| `ClientProtocol.DoneChannelsClosedOnce` | pkg/client/client.go:491-496 | no done channel is closed twice in any run, although Close leaves it set |
| `ClientProtocol.StaleDisconnectChangesNothing` | pkg/client/client.go:484-490 | a disconnect for a connection that is no longer current changes no shared field |
| `ClientProtocol.NeverCurrentAgain` | pkg/client/client.go:396-401 | a connection that was replaced or torn down never becomes current again |
| `ClientProtocol.TornDownOnce` | pkg/client/client.go:484-498 | of all goroutines rejected on one connection exactly the first tears it down |
| `ClientProtocol.NoCallerForgotten` | pkg/client/client.go:506-513 | a waiting request of a torn connection that is still pending lies ahead of a goroutine that is failing that connection's requests |
| `ClientProtocol.TornCallsAreAnswered` | pkg/client/client.go:484-521 | once teardowns and replies are at rest every waiting call of a torn connection has its answer |
| `ClientProtocol.SingleReconnectLoop` | pkg/client/client.go:518-532 | the number of reconnect loops is one while the flag is set and zero otherwise; `ClientProgress` and `ClientRecovery` say when the flag must be set |
| `ClientProtocol.ConcurrentCallsBounded` | pkg/client/client.go:602-606 | the semaphore count is the number of running Calls and never exceeds MaxConcurrentCalls |
| `ClientProtocol.ReauthenticationBounded` | pkg/client/client.go:608-672 | in every interleaving a Call sees at most two rejections and tears down at most one connection |
| `ClientProgress.TeardownRestarts` | pkg/client/client.go:484-521 | a goroutine that tears a connection down does not return before the client is closed or has the reconnect flag set, with one holder |
| `ClientProgress.FailedConnectRestarts` | pkg/client/client.go:280-312 | so does a Connect whose dial failed for a transient reason; any other failure ends it at once |
| `ClientProgress.ClosedTeardownClaimsNothing` | pkg/client/client.go:518-520 | once the client is closed no goroutine comes to claim the flag any more, unless it was past that check or is a Connect |
| `ClientProgress.LoopGoesOn` | pkg/client/client.go:536-581 | a reconnect loop goes on after every failed dial: it ends only by connecting, by finding the client closed or connected, or by its limit |
| `ClientProgress.CurrentIsAttended` | pkg/client/client.go:396-404 | in every run the current connection has a goroutine that reads it and one that pings it, or is about to start them or to give the connection up |
| `ClientProgress.ServedUntilGone` | pkg/client/client.go:411-480 | a read or ping loop serves its connection until that is no longer current |
| `ClientProgress.NoConnectionWithoutReader` | pkg/client/client.go:411-480 | when a read or ping loop has ended, its connection is not current |
| `ClientProgress.RejectedConnectionIsGivenUp` | pkg/client/client.go:637-643 | after its first rejection a Call goes on only when the connection the rejection came over is not current |
| `ClientProgress.CloseStopsCurrent` | pkg/client/client.go:766-772 | Close leaves no current connection and closes the done channel of the one that was |
| `ClientProgress.CloseIsCarriedOut` | pkg/client/client.go:757-772 | the goroutine that closes the client does not return before that |
| `ClientProgress.NoDialAfterClose` | pkg/client/client.go:328-330 | once the client is closed only a dial that was past its check can still connect |
| `ClientProgress.DialCheckDecides` | pkg/client/client.go:328-330 | a dial is refused exactly when the client is closed |
| `ClientProgress.ConnectEndsForAReason` | pkg/client/client.go:280-404 | a Connect ends with a connection, with a failed dial, or because it found the client closed |
| `ClientProgress.FrameReachesItsCall` | pkg/client/client.go:437-443 | a frame for a pending request reaches the channel of its Call before the read loop reads on |
| `ClientProgress.WaitEndsForAReason` | pkg/client/client.go:735-753 | a Call leaves its wait with a message only by receiving it, and without one only because the request could not be written or its context ended |
| `ClientProgress.CallsUseCurrent` | pkg/client/client.go:609-624 | the connection a Call uses was current when the Call took it |
| `ClientProgress.VerdictDecides` | pkg/client/client.go:631-671 | success and other errors end a Call, a lost connection is retried, the first rejection disconnects the connection it came over, the second ends the Call |
| `ClientRecovery.StrandsExactly` | pkg/client/client.go:524-530 | a step leaves an open, disconnected client without a reconnect loop or a goroutine that will start one exactly when a loop clears the flag while the client is disconnected and nobody will look at the flag |
| `ClientRecovery.DownIsRecovering` | pkg/client/client.go:484-582 | in every run that is the only way to get there |
| `ClientRecovery.LostWhileReconnecting` | pkg/client/client.go:403-404 | a run in which the connection made by a reconnect loop is lost before the flag is cleared, and no loop is left |
| `ClientRecovery.StrandedForGood` | pkg/client/client.go:518-530 | such a client stays without a connection until somebody calls Connect or Close |
| `ClientRecovery.ShutDownForGood` | pkg/client/client.go:328-330 | a closed client never has a connection again, unless a dial was past its check |
| `ClientRecovery.LateDialConnects` | pkg/client/client.go:396-401 | such a dial can always still connect it |
| `ClientRecovery.ConnectedAfterClose` | pkg/client/client.go:757-772 | a run that ends with a connection after Close has returned |
| `ClientLoops.ReconnectLoop` | pkg/client/client.go:524-582 | for every trace: dials until one succeeds, at most MaxReconnectAttempts of them when a limit is set, a wait of the backoff before each and before stopping, and the result decided by the last event |
| `ClientLoops.DoublingWait` | pkg/client/client.go:578-580 | with factor 2 the capped doublings collapse to one doubling with one cap |
| `ClientLoops.BackoffClosedForm` | pkg/client/client.go:533-580 | the k-th wait is min(min * 2^(k-1), max) for all k exactly when min <= max |
| `ClientLoops.Call` | pkg/client/client.go:602-672 | for every trace: at most two rejections, one teardown, nil only after a successful last attempt, retries only where a lost connection or the first rejection allows them |
| `PathText.CleanIdempotent` | pkg/driver/node_discovery.go:144-154 | cleaning keeps a path absolute or relative and is idempotent |
| `PathText.CleanSteps` | pkg/driver/node_discovery.go:144-154 | cleaning drops empty components and ".", appends a name, and takes ".." back to before the name |
| `PathText.PrefixIsComponentPrefix` | pkg/driver/detached.go:39-44 | a path and a slash is a text prefix exactly when the components are a proper prefix |
| `PathText.CompactStrings` | pkg/driver/node_discovery.go:826-837 | in place, although it overwrites its input: each string equal to its predecessor is dropped |
| `PathText.SortCompact` | pkg/driver/node_discovery.go:241-243 | sorting and compacting gives the same strings, each once, strictly increasing |
| `PathText.LessIsLexicographic` | pkg/driver/node_discovery.go:241-243 | the order is the usual one of strings: by the first character in which they differ, a prefix before its extensions |
| `BlockDevices.WalkCovers` | pkg/driver/node_discovery.go:212-237 | a walk that succeeds has followed every path, none of which revisits a device |
| `BlockDevices.WalkBlame` | pkg/driver/node_discovery.go:212-237 | a walk that fails has a path to a revisited or an unreadable device |
| `BlockDevices.WalkReportsLeaves` | pkg/driver/node_discovery.go:225-228 | what a walk reports are exactly the leaves it can reach |
| `BlockDevices.WalkIsExact` | pkg/driver/node_discovery.go:198-240 | the walk fails exactly when a cycle or an unreadable list is reachable, and otherwise finds exactly the reachable leaves |
| `BlockDevices.Walker.Visit` | pkg/driver/node_discovery.go:213-237 | the recursive closure over the shared leaves and visiting set computes the walk and restores the visiting set |
| `BlockDevices.ResolveBlockDevices` | pkg/driver/node_discovery.go:198-244 | success exactly below the device directory without reachable cycle or unreadable list; the devices are exactly the reachable leaves, strictly increasing |
| `MountTable.FindEffectiveMount` | pkg/driver/node_discovery.go:117-130 | the last mount at a cleaned path |
| `MountTable.EffectiveMount` | pkg/driver/node_discovery.go:117-130 | a result is a mount at the path, and none means that there is none |
| `MountTable.ResolveIsExact` | pkg/driver/node_discovery.go:172-196 | resolution fails exactly when following sources never ends, and otherwise returns the end of the chain with the last known filesystem type |
| `MountTable.TypeIsLast` | pkg/driver/node_discovery.go:177-195 | the filesystem type of a resolved source is the last one on the way that is not empty |
| `MountTable.ResolveFailsOnLoops` | pkg/driver/node_discovery.go:172-196 | the same on a mount table, and the end of the chain is covered by no mount |
| `MountTable.ResolveMountSource` | pkg/driver/node_discovery.go:172-196 | the loop terminates on every mount table and computes that resolution |
| `MountTable.MirrorIsFolded` | pkg/driver/node_discovery.go:144-154 | for every absolute path but the root and those below /host, the path and its host mirror have the same canonical form, the cleaned path |
| `MountTable.MirrorIsFoldedExactly` | pkg/driver/node_discovery.go:144-154 | of a cleaned path, exactly for those |
| `MountTable.EffectiveCanonicalMount` | pkg/driver/node_discovery.go:132-142 | a result is a mount at the path or its host mirror, and none means that neither is mounted |
| `MountTable.ExternalMountReferences` | pkg/driver/node_discovery.go:156-170 | exactly the other canonical places of a mount, each once, in order; none for a mount and its host mirror |
| `VolumeNames.MadeName` | pkg/driver/controller.go:720-736 | each character in lower case if it is allowed and a dash otherwise, cut to the limit |
| `VolumeNames.MakeName` | pkg/driver/controller.go:782-798 | the loop over the characters computes that name, for subsystems as for targets |
| `VolumeNames.BelongsByName` | pkg/driver/node_discovery.go:355-360 | for all bases and names, which names a target is taken for: its own, one its name ends with behind a colon, and one that ends with its name and whose front part ends the base; without colons only its own |
| `VolumeNames.SubsystemIsRecognised` | pkg/driver/node_discovery.go:624-629 | an NQN belongs to a volume exactly when their subsystem names agree |
| `VolumeNames.TargetCanBeMistaken` | pkg/driver/node_discovery.go:355-360 | with a colon in a volume ID the target of one volume matches another, and the other way round under a base that ends in the front part |
| `NodeDiscovery.ConnectionPortals` | pkg/driver/node_discovery.go:369-372 | the portals of a connection are those of the target's sessions, each once, in order |
| `NodeDiscovery.FindNodeRecord` | pkg/driver/node_discovery.go:375-397 | the only matching node record, none, or an error for several |
| `NodeDiscovery.GroupByTarget` | pkg/driver/node_discovery.go:356-361 | the portals of every matching target, grouped |
| `NodeDiscovery.FindConnection` | pkg/driver/node_discovery.go:350-373 | the only matching target with its portals; without sessions, the node record |
| `NodeDiscovery.FindEvidence` | pkg/driver/node_discovery.go:444-474 | the only target among node records and sysfs, none, or an error for several |
| `NodeDiscovery.FindSubsystem` | pkg/driver/node_discovery.go:619-656 | the only matching fabrics subsystem, none, or an error for several, mixed or unsupported controllers |
| `NodeDiscovery.SubsystemIsFound` | pkg/driver/node_discovery.go:619-656 | controller by controller: a subsystem is found exactly when all fabrics controllers named for the volume are its own and all others are local; none is found exactly when all are local |
| `NodeIdentity.DiscoverDetached` | pkg/driver/node_discovery.go:714-745 | the transport of a volume from its ID alone |
| `NodeIdentity.NothingMeansNoTrace` | pkg/driver/node_discovery.go:714-728 | nothing is reported exactly when neither iSCSI evidence nor a fabrics controller is left |
| `NodeIdentity.EvidenceIsFound` | pkg/driver/node_discovery.go:720-744 | on a consistent node the ID leads to a target with its live portals exactly when all evidence is of that target and none is NVMe-oF |
| `NodeIdentity.DetachedIsAll` | pkg/driver/node_discovery.go:714-745 | on any node, what the ID leads to is all that the node shows of the volume |
| `NodeIdentity.LogoutCanBeRetried` | pkg/driver/iscsi.go:268-316 | after a logout that stopped anywhere the ID leads to the same target while a trace is left, else to nothing |
| `NodeIdentity.DisconnectCanBeRetried` | pkg/driver/nvmeof.go:348-370 | the same for an NVMe-oF subsystem |
| `NodeIdentity.CommonSubsystem` | pkg/driver/node_discovery.go:579-603 | one subsystem for all devices, none for none of them, an error for a mixture |
| `NodeIdentity.HasRemoteControllers` | pkg/driver/node_discovery.go:553-577 | whether a subsystem has fabrics controllers, with mixed and unsupported transports refused |
| `NodeIdentity.NvmeForDevices` | pkg/driver/node_discovery.go:579-617 | the subsystem that all devices of a mount belong to, if it is the volume's |
| `NodeIdentity.ConnectionFromSessions` | pkg/driver/node_discovery.go:325-348 | one target for all sessions the devices hang on, every one of them live and the volume's own |
| `NodeIdentity.IscsiForDevices` | pkg/driver/node_discovery.go:305-348 | the iSCSI connection of the devices of a mount |
| `NodeIdentity.MountedIsOwn` | pkg/driver/node_discovery.go:666-712 | what a mount leads to is live and named for the volume |
| `NodeIdentity.MountedIsExact` | pkg/driver/node_discovery.go:579-617 | a mount leads to a subsystem exactly when all its devices are of that subsystem, which is named for the volume and has only fabrics controllers, and to a target exactly when all its devices hang on live sessions of that target, which is named for the volume |
| `NodeIdentity.TransportIsRediscovered` | pkg/driver/node.go:251-304 | if disconnecting fails anywhere after the unmount, a retry on a consistent, unambiguous node finds the same IQN or NQN from the volume ID, or nothing once it is gone |
| `NodeUnstage.Node.Classify` | pkg/driver/node_discovery.go:691-711 | the transport that all leaf devices of a mount agree on |
| `NodeUnstage.Node.DiscoverMounted` | pkg/driver/node_discovery.go:666-712 | the end of the mount's source chain decides: NFS by its type, otherwise what exactly its reachable leaf devices lead to; an error exactly when that leads to nothing |
| `NodeUnstage.Node.DiscoverUnstageState` | pkg/driver/node_discovery.go:747-774 | the one staging mount with its transport, or, with nothing mounted here or through the mirror, the transport found by ID; on a node that works an error exactly when there is no such answer |
| `NodeUnstage.FailedUnstageIsRediscovered` | pkg/driver/node.go:251-304 | after a failure with the mount gone, discovery on the same node has an answer, and every answer is the same transport or nothing |
| `NodeUnstage.MirrorIsSeen` | pkg/driver/node.go:274-277 | a mount left at the host mirror of a path counts as a mount at the path |
| `NodeUnstage.MirrorIsNoPublication` | pkg/driver/node.go:258-267 | the host mirror of the staging mount does not make a volume published |
| `NodeUnstage.Node.LogoutTarget` | pkg/driver/iscsi.go:304-316 | only sessions and records of this target go, wherever the loop stops; with working commands all of them, if the portals cover the sessions |
| `NodeUnstage.Node.UnstageIscsi` | pkg/driver/iscsi.go:268-292 | success leaves no session, sysfs entry or matching record of the target |
| `NodeUnstage.Node.UnstageNvme` | pkg/driver/nvmeof.go:348-370 | success leaves no fabrics controller of the subsystem |
| `NodeUnstage.Node.ReleaseMount` | pkg/driver/node.go:258-277 | a mount that is referenced elsewhere is left alone; success leaves no canonical mount; a node that works succeeds exactly without other references |
| `NodeUnstage.Node.NodeUnstageVolume` | pkg/driver/node.go:235-319 | success leaves no mount at the staging path or block anchor and no trace of the discovered transport; failure touched only that mount and that transport, the transport only after the mount was gone; a published volume is untouched; a node that works unstages exactly the volumes that are not published, if the portals found cover their sessions |
| `NodeLifecycle.StageGood` | pkg/driver/nvmeof.go:146-167 | every staging step, the rollback of a connection without device included, keeps published volumes staged and connected |
| `NodeLifecycle.PublishGood` | pkg/driver/iscsi.go:327-362 | every publish and unpublish step does |
| `NodeLifecycle.UnstageGood` | pkg/driver/node.go:246-304 | every unstage step does |
| `NodeLifecycle.StepKeeps` | pkg/driver/node.go:70-83 | the invariant over mounts, transports, locks and what each operation knows is kept by every step and by a restart |
| `NodeLifecycle.PublishedStaysUsable` | pkg/driver/node.go:344-429 | in every interleaving a published volume has its staging mount and its transport |
| `NodeLifecycle.NoDisconnectUnderPublication` | pkg/driver/node.go:256-304 | no step disconnects or unstages a volume that is published anywhere |
| `NodeLifecycle.OneOperationPerVolume` | pkg/driver/node.go:70-83 | two operations never work on one volume at once, and a lock belongs to the operation that releases it |
| `NodeRefinement.UnstageIsStepwise` | pkg/driver/node.go:253-304 | everything NodeUnstageVolume may do to mounts and transports is a sequence of the lifecycle's unstage steps |
| `NodeOperations.Plugin.Stage` | pkg/driver/node.go:145-232 | for every outcome of its calls, the lifecycle's staging steps and the exact result; success leaves the volume staged at the place of its access type, and a connection without a device is given up |
| `NodeOperations.Plugin.Publish` | pkg/driver/node.go:344-433 | for every outcome of its calls, the publish steps and the exact result; nothing is bound unless the volume is staged |
| `NodeOperations.Plugin.Unpublish` | pkg/driver/node.go:447-459 | for every outcome of its call, the unpublish step and the exact result; a working unmount removes the mounts at the target and no others |
| `NodeLifecycle.VolumeLocks.TryAcquireLock` | pkg/driver/node.go:73-76 | the lock is taken exactly when it is free |
| `NodeLifecycle.VolumeLocks.ReleaseLock` | pkg/driver/node.go:79-83 | only the named lock is freed |
| `ZfsPool.HasSourceDependentSnapshot` | pkg/driver/controller.go:1957-1979 | found exactly when some snapshot is clone-private or managed, whatever the shape of its property |
| `SnapshotController.PrivateSnapshotIsDependent` | pkg/driver/controller.go:1577-1579 | the private snapshot of a clone is recognised by its name alone and by its ID alone, whatever its property |
| `ZfsPool.UnguardedIsChildless` | pkg/driver/controller.go:1872-1882 | a volume that passes the check has no clones |
| `ZfsPool.DropSnapshotKeeps` | pkg/client/storage.go:1175-1187 | deferred destroy keeps every clone's origin |
| `SnapshotSafety.OpKeeps` | pkg/driver/controller.go:1838-1955 | every operation under every pattern of failures keeps origins, their datasets and the meaning of deferral |
| `SnapshotSafety.ClonesKeepTheirOrigin` | pkg/driver/controller.go:1577-1592 | in every run every live clone's origin snapshot and origin dataset exist |
| `SnapshotSafety.SafeStaysSafe` | pkg/driver/controller.go:1875-1882 | a protected snapshot that is not deferred survives everything but its own deletion |
| `SnapshotSafety.UnsafeCanVanish` | pkg/driver/controller.go:2318-2332 | from any other snapshot a run of ordinary deletions leads to a state without it |
| `SnapshotSafety.SurvivesExactlyWhenSafe` | pkg/driver/controller.go:1957-1979 | a snapshot survives every continuation exactly when it is protected and not deferred |
| `SnapshotSafety.ReturnedSnapshotSurvives` | pkg/driver/controller.go:2310-2365 | a snapshot that CreateSnapshot returns survives until its own DeleteSnapshot exactly when the call created it or found it safe |
| `SnapshotSafety.FoundSnapshotCanVanish` | pkg/driver/controller.go:2318-2332 | a concrete run in which a returned snapshot disappears with a restored volume |
| `SnapshotController.Controller.CreateSnapshot` | pkg/driver/controller.go:2310-2365 | for every outcome of its calls, the operation of the model; a failed search is ignored, a successful one is obeyed |
| `SnapshotController.Controller.RestoreSnapshot` | pkg/driver/controller.go:1463-1540 | for every outcome of its calls: the clone is deleted again when describing or exporting it fails, and left when resizing it fails; success exactly otherwise |
| `SnapshotController.Controller.CloneVolume` | pkg/driver/controller.go:1557-1652 | for every outcome of its calls: cloning through a private managed snapshot for which the deletion is called whether or not the clone succeeds; success leaves the clone |
| `SnapshotController.Controller.DeleteSnapshot` | pkg/driver/controller.go:2409-2417 | success leaves the snapshot gone, or deferred while it has clones |
| `SnapshotController.Controller.DeleteVolume` | pkg/driver/controller.go:1857-1955 | a guarded volume is refused before anything changes; success leaves none |
| `SnapshotController.PrivateSnapshotLeftBehind` | pkg/driver/controller.go:1577-1592 | the private snapshot stays, neither gone nor waiting for its clone to go, exactly when its creation fails after its effect or its deletion fails |
| `SnapshotController.CloneThenDeleteUnguards` | pkg/driver/controller.go:1577-1592 | cloning a volume and deleting the clone, with working calls, restores datasets and snapshots, so that the source is as deletable as before |
| `SnapshotController.AbortedRestoreLeavesNothing` | pkg/driver/controller.go:1463-1540 | a restore that is given up leaves the datasets and snapshots as they were |
| `DetachedPaths.OverlapIsKinship` | pkg/driver/detached.go:39-44 | for any two strings the test decides whether one trimmed path contains the other |
| `DetachedPaths.ValidPathIsClean` | pkg/driver/detached.go:46-56 | a path is valid exactly when it is a cleaned rooted path without the root's slash and without "@" |
| `DetachedOverlap.OverlapOfNested` | pkg/driver/detached.go:39-44 | of a dataset and one beneath it the test reports the overlap exactly unless the outer path trims to nothing or its last component is text followed by a blank |
| `DetachedOverlap.OverlapMisses` | pkg/driver/detached.go:39-44 | an input that is missed |
| `DetachedOverlap.OverlapIsExact` | pkg/driver/detached.go:39-56 | for valid paths without blanks at their ends the test holds exactly when one component list is a prefix of the other, and acceptance is disjointness |
| `DetachedPaths.VolumeIDByParts` | pkg/driver/detached.go:80-89 | volume IDs are the valid paths of at least two components |
| `DetachedPaths.PartsByComponents` | pkg/driver/detached.go:61-78 | snapshot IDs are the valid paths of at least three components |
| `DetachedPaths.PartsRoundTrip` | pkg/driver/detached.go:61-89 | parsing inverts building exactly for valid volume IDs and single valid components as names |
| `DetachedPaths.DatasetOfIsBeneath` | pkg/driver/detached.go:91-99 | every ID denotes a dataset strictly beneath the parent, and different IDs different datasets |
| `DetachedPaths.DeletionReach` | pkg/driver/controller.go:2402-2406 | deleting one snapshot's dataset recursively reaches another exactly when the IDs are nested |
| `DetachedOverlap.ValidatedIsDisjoint` | pkg/driver/detached.go:125-137 | for all valid paths, an accepted pair shares a subtree exactly when the test is blind to the outer path |
| `DetachedOverlap.SafeParent` | pkg/driver/detached.go:125-137 | a detached root is disjoint from every dataset accepted with it exactly when the test is blind to none of its ancestors nor itself |
| `DetachedPaths.DeletionReachesNested` | pkg/driver/controller.go:2402-2406 | below every detached snapshot there is an ID that goes with it |
| `DetachedOverlap.BlanksDefeatValidation` | pkg/driver/detached.go:125-137 | every parent beneath a volume the test is blind to is accepted, and the volume contains every detached snapshot |
| `DetachedSnapshots.ListingRecovers` | pkg/driver/detached.go:420-444 | listing recovers volume and name from the dataset path, and the filter selects exactly the volume |
| `DetachedSnapshots.ListedIsBeneath` | pkg/driver/detached.go:420-444 | whatever is listed is marked and lies at parent, volume and name |
| `DetachedSnapshots.ListDetached` | pkg/driver/detached.go:419-446 | the loop lists exactly the selected entries, in order |
| `DetachedSnapshots.NamesStayUnique` | pkg/driver/detached.go:335-364 | in every history, whatever names are asked for and whichever calls fail, two marked snapshots never share a name |
| `DetachedSnapshots.DeleteStaysBeneathParent` | pkg/driver/controller.go:2380-2406 | for every ID, even when the deletion stops halfway, nothing outside the parent goes |
| `DetachedServer.Server.EnsureDataset` | pkg/driver/detached.go:166-185 | only missing datasets on the way appear, unmarked |
| `DetachedServer.Server.FindByName` | pkg/driver/detached.go:449-460 | no result means that the name is free |
| `DetachedServer.Server.Transfer` | pkg/driver/detached.go:215-272 | success leaves the target and neither the received nor the temporary snapshot; other snapshots are untouched; with working deletions both go even when the replication fails |
| `DetachedServer.Server.CreateDetached` | pkg/driver/detached.go:321-371 | success leaves a marked target; after success and after a failed replication no temporary snapshot is left; whatever fails, only the target and its ancestors appear, a marked target is left alone and the marker is set only under a free name; without faults it succeeds whenever the paths are valid and neither the name nor the target is taken |
| `DetachedServer.Server.DeleteDetached` | pkg/driver/controller.go:2378-2407 | success leaves nothing of the snapshot's subtree and everything else; an unmarked dataset is refused; an invalid ID counts as deleted; without faults it succeeds exactly for what is missing or marked |
| `Backend.NextAuthTag` | pkg/client/storage.go:1070-1084 | one more than the largest tag, so a tag no credential has |
| `Backend.Server.DeleteTarget` | pkg/client/storage.go:971-1002 | first the associations of the target, then the target; others are untouched |
| `Provisioning.CreateNFSVolume` | pkg/driver/controller.go:623-714 | a dataset with its share, whenever no creation fails and the dataset can be created; on every failure all earlier datasets and rows stay and at most the volume's own can be left, and with working deletions exactly the row of a call that failed after its effect |
| `IscsiProvisioning.CreateAccess` | pkg/driver/controller.go:1257-1327 | a credential with a tag of its own and an initiator group, or what their failure leaves |
| `IscsiProvisioning.ExportTarget` | pkg/driver/controller.go:1329-1380 | target, extent and association at LUN 0; or none of them, with exactly what a late failure or a failed deletion leaves |
| `IscsiProvisioning.CreateISCSIVolume` | pkg/driver/controller.go:1240-1413 | the whole chain, whenever no call fails, the dataset can be created and a user has a secret; the target is called as asked and names the tag of its own credential and its own initiator group; on every failure all earlier datasets and rows stay and at most one own row a table can be left, and with working deletions exactly the row of a call that failed after its effect |
| `NvmeProvisioning.EnsureHost` | pkg/driver/controller.go:852-880 | a host of the NQN that exists; at most one is added; with working queries none is returned only when there is none |
| `NvmeProvisioning.CreateNVMeOFVolume` | pkg/driver/controller.go:885-972 | the same for the NVMe-oF chain, where a shared host may stay as well |
| `IscsiTables.RepairConverges` | pkg/driver/controller.go:1106-1196 | with working calls the repair succeeds exactly when the extent is linked or its names and LUN 0 are free; success leaves exactly one extent, linked exactly once, to an existing target; every other row is untouched, and a new link leads to the volume's target at LUN 0 |
| `IscsiTables.RepairIsIdempotent` | pkg/driver/controller.go:1185-1195 | running it again changes nothing and returns the same target and LUN |
| `IscsiTables.RetryStillPossible` | pkg/driver/controller.go:1106-1196 | what an interrupted attempt leaves never keeps a later one from succeeding |
| `IscsiRepair.Server.EnsureISCSIChain` | pkg/driver/controller.go:1106-1196 | call by call: the tables stay intact and grow only by rows of the chain whatever fails; success, and every end on a server that works, is the repair |
| `NVMeCleanup.BySubsystem` | pkg/client/nvme.go:262-274 | exactly the rows of the subsystem |
| `NVMeCleanup.ByHost` | pkg/client/nvme.go:397-409 | exactly the links of the host |
| `NVMeCleanup.FreedExactly` | pkg/driver/controller.go:1050-1099 | with working calls the three tables keep exactly the rows of other subsystems, unchanged, the subsystem goes, ports stay, and the hosts that go are exactly those linked to this subsystem alone |
| `NVMeCleanup.NoLinkedHostIsDeleted` | pkg/driver/controller.go:1056-1074 | whatever fails, no host with a link is deleted, nor the shared port |
| `NVMeCleanup.LinkedHostsStay` | pkg/driver/controller.go:1040-1100 | in every sequence of authorizations and deletions every link keeps its host |
| `NVMeCleanup.Server.CollectHostLinks` | pkg/driver/controller.go:1051-1074 | the loop removes the subsystem's links and frees hosts with their last link; what stays has a deletion that may fail |
| `NVMeCleanup.Server.DeleteNVMeOFResources` | pkg/driver/controller.go:1044-1100 | whatever fails, only rows of the subsystem and hosts without links go; with working queries whatever stays has a deletion that may fail; without faults exactly what `FreedExactly` says; a zero ID changes nothing |
| `Pagination.AtoiItoa` | pkg/driver/controller.go:2430-2438 | decimal tokens round-trip |
| `Pagination.RefusedTokens` | pkg/driver/controller.go:2430-2438 | a token is refused exactly when it is neither empty nor a number from zero to the length of the list, and a page is the part of the list from its offset, as long as the limit allows |
| `Pagination.FollowCovers` | pkg/driver/controller.go:2549-2574 | from any valid token the pages are the rest of the list |
| `Pagination.PaginationCoversExactly` | pkg/driver/controller.go:2594-2630 | following tokens from the empty one ends, and the pages together are the list, in order, each entry once, in the least number of pages |
| `Gauges.GaugesAreConserved` | pkg/driver/metrics.go:192-228 | after any updates each gauge is the sum, and the number, of the volumes recorded under its labels, and none is negative |
| `Gauges.Metrics.SetProvisionedVolume` | pkg/driver/metrics.go:192-214 | a volume is added or replaced under its pool and protocol, unknown if empty, with no negative capacity, and both gauges stay exact |
| `Gauges.Metrics.RemoveProvisionedVolume` | pkg/driver/metrics.go:217-228 | a volume is removed and both gauges stay exact |

## Left out

- WebSocket, TLS, JSON encoding, gRPC, logging and the Prometheus server; real time, except the backoff arithmetic, which is exact instead of 64-bit floating point and cannot overflow.
- `waitForConnection` and the timeouts of a Call are outcomes of the environment.
- The storage server and the node's commands are tables: iscsiadm, nvme, mount-utils and sysfs parsing are not modelled, and replies show the tables as they are.
- The NVMe-oF tables have no referential rule: a port or host link whose creation failed after its effect can be left naming a subsystem that was deleted.
- A server that allows a slash in the name of a ZFS snapshot: detached snapshot names are unique because ZFS refuses the temporary snapshot of such a name.
- The periodic snapshot task that is created after a volume is not modelled.
- `DetachedOverlap.OverlapIsExact`: which unrelated paths the test rejects because they differ only in blanks is not characterised beyond `OverlapIsKinship`, since a rejection deletes nothing.
- `NodeDiscovery.FindSubsystem`: the device paths of the controllers are not returned, since only Expand uses them.
- `NodeIdentity.DiscoverDetached`: for the same reason the found state has no list of controllers.
- Creation from a snapshot or a volume is modelled for its effect on snapshots only; resize failures after cloning are not compensated by the code.
- NVMe-oF chain repair: the code takes an existing namespace for a complete chain.
- A crash between transferring and marking a detached snapshot leaves an unmarked target that a retry rejects; user properties are not inherited by child datasets in the model.
- Volumes are not nested in the snapshot model, and volumes are restored only from snapshots the driver made.
- Unicode case folding in generated names; names are taken to be distinct in the node lifecycle, since truncation and replacement make them collide in general.
- CHAP and DH-CHAP option plumbing, encryption, StorageClass validation, description templates, capacity, Expand beyond its lock, NFS publication, topology, `cmd/` and the Helm chart.
