# xui-agent: crash-safe activation and at-least-once telemetry, verified

This project models the parts of xui-agent that must survive a crash at any moment, and proves what they
promise. Everything is checked by `dafny verify dfyconfig.toml` (Dafny 4.11).

The agent manages an Xray process on a node. It applies configurations and Xray bundles that a center sends,
updates its own binary, and ships access, traffic and online events back. Each of these is a small protocol over
durable files.

## What is modelled

**Configuration and bundle activation.** Both managers keep the same five records (`current`, `previous`,
`applied`, `pending`, `failed`) and a store of immutable versions. A node is a `World` value (`NodeState`): the files of
both managers, what runs, and a script of *fates*, one per durable step. A step is done, not done, done but reported as
an error (the file was renamed, then the directory sync failed), or the agent dies before it. When the script is
used up the agent dies, so quantifying over scripts quantifies over every crash point. A healthy restart runs what is
selected at that moment; a stop or restart that reports an error, or is cut off, leaves anything running.

- `ConfigActivation` and `BundleActivation` are the operations as functions of the world, branch by branch.
- `ConfigManager` and `BundleManager` are the same operations as the Go code writes them: classes whose methods
  update their record fields in place and loop over their version stores. Each method is proved equal to the function.
- `NodeInvariant`, `ConfigProofs`, `BundleProofs` hold the invariant of every durable step and the proofs that each
  operation keeps it. `NodeRuns` composes operations, `NodeLives` has the theorems about every state of every life of a
  node, `NodeProgress` shows exactly when recovery gets there, `NodeLimits` has the lives and conditions in which promises
  fail, `NodeStores` covers retention and immutability, `VersionGate` follows validated versions through drift and repair, and `Agent` runs the classes in a loop.
- `ConfigSuccess` and `BundleSuccess` say exactly which commands take effect when no step fails, `ConfigRollback` and
  `BundleRollback` what one failing step leads to, depending on where it is, and `NodeUpgrades` says it of whole lives. `ConfigDrift` assumes
  no invariant: it covers files that were changed behind the agent's back.
- `ConfigNames` and `Retention` hold the names of versions and the ranking rule of garbage collection.

**Self-update.** `SelfUpdate` is one state machine for two programs, the Go installer and confirmer and the shell
launcher, whose steps interleave freely. `SelfUpdateRuns` has the results about exit statuses and about an update that goes well.

**Events.** `EventSpool` and `EventStore` are the bounded queue (functions, and the class that updates its buckets in
place); `Uploader` adds a lossy network and the center; `AccessLine`, `AccessLog`, `AccessStart` and `AccessCollector` tail the access log;
`Traffic` splits counters into epochs. `Stability` is the polling loop that decides when a replacement process is healthy.

## Assumptions

- SHA-256 is injective where file contents are named by it. JSON is any encoding that decodes back. bbolt is an
  ordered map with atomic transactions.
- A write is atomic: the old file or the new one.
- The configuration manager and the agent's own update switch symbolic links by a bare rename, which is never "done but
  reported as an error". The bundle manager syncs the directory after the rename, so its link switches can be.
- Version and sequence counters of the spool do not wrap around 2^64, nor does the sum of its byte counter and one event.
- Clocks show times after 1970 where the code rejects earlier ones.
- Apart from `VersionGate`, which lets version files and the `current` link change behind the agent's back, nobody
  else edits the files.

## Results that were not expected

- **A node may stop serving.** "Nothing pending means Xray runs what the records select" fails when writing the
  bundle's `applied` record succeeds and still reports an error: the rollback stops the candidate, a crash follows, and the
  next start finds a matching `applied` record and confirms it. It holds exactly when that write cannot fail this way
  (`NodeLimits.ServesUnlessLossy`).
- **A node may never start again.** When a bundle update has to be rolled back while the configuration's link and
  `applied` record disagree, recovering the bundle fails before it touches anything, and the start ends before the
  configuration, which could still be recovered, gets its turn. A failed stop during an install, followed by a configuration
  apply that is cut off after its link switch, leads there (`NodeLimits.StuckLife`). No later start changes a file
  (`NodeLives.StuckForGood`); in every other state a start whose steps succeed settles the node (`NodeLives.BootSettles`).
- **A rolled-back attempt may be reported as a failed recovery**, exactly when the removal of
  `pending` succeeds and reports an error and the failure record written next lands (`NodeLimits.MisreportsExactly`).
- **A pending self-update may be recorded as failed while its binary is selected.** `prepare-update` runs beside a live
  launcher and may switch `current` between the launcher's rollback and its move of the pending file. And a release that repeats the
  running version string can be confirmed by the old binary. The outcome is honest exactly when neither is possible
  (`SelfUpdate.HonestExactlyWhen`).
- **A rotated access log that ends without a newline is never left behind**: each poll returns at its unfinished
  line and the new log is not read (`AccessLog.LeavesRotatedFileIffDrained`).
- **A second rotation before the collector has left an older generation costs a whole file**, although the file
  is still there: exactly one per such rotation (`AccessLog.SkipsExactly`, `AccessLog.SkippedFile`).
- **Traffic epochs fall if a runtime id comes back** after another one (`Traffic.MonotoneUnlessRecurrence`).

## Model

| member | source | states |
|---|---|---|
| NodeLives.ServesWhenQuiescent | internal/agent/client.go:148-158 | In every state of every life of commands and restarts, each cut off anywhere: whenever neither manager has a pending record, the last healthy start used exactly the applied bundle, or the bootstrap binary before any, which is what ActivePath selects, and the applied configuration; without a configuration nothing runs. |
| NodeLives.ConfigAllOrNothing | internal/xrayruntime/manager.go:121-431 | A newer configuration arrives while none is pending; the apply and any number of restarts after it stop or fail at any step. Whenever nothing is pending any more the node has the exact old pair, or the requested one after a healthy start of it since the request. |
| NodeLives.BundleAllOrNothing | internal/xrayupdate/manager.go:314-552 | The same for a release that is not applied, whatever the configuration side is doing; a rolled-back first install leaves neither `current` nor `applied`, so the bootstrap binary is active again, and the new bundle stands only after a healthy start of it if a configuration was in use. |
| NodeLives.BootSettles | internal/agent/client.go:148-158 | After any life a start whose fourteen steps succeed leaves nothing pending on either side, if and only if the node is not stuck: no update has to be rolled back while the configuration in use cannot be read. |
| NodeLives.StuckForGood | internal/agent/client.go:148-158 | Starts alone, whatever becomes of their steps, never free a stuck node nor change a file of it. |
| NodeLimits.StuckLife | internal/xrayupdate/manager.go:450-453 | For every two valid configurations in order and every release there is a life, on any disk, that ends stuck. |
| NodeProgress.StuckRefuses | internal/xrayupdate/manager.go:445-453 | On a stuck node recovery of the bundle returns an error before it touches anything, whatever its steps would do. |
| NodeLives.PendingIsAccountedFor | internal/xrayruntime/manager.go:226-261 | No operation of any life overwrites a pending record or drops it without an outcome: it is still there, confirmed by a matching pair, or undone with a failure record. |
| NodeLives.PendingTargetIsNew | internal/xrayupdate/manager.go:344-384 | In every state of every life a pending update's target differs from its previous target. |
| NodeLives.NothingEverDangles | internal/xrayruntime/manager.go:616-643 | In every state of every life each target named by `current`, `previous`, `applied` or `pending`, on both sides, exists and is intact. |
| NodeLives.VersionsNeverChange | internal/xrayruntime/manager.go:441-471 | A version file that exists at two times of a life has the bytes its name promises both times. |
| NodeLives.BundlesNeverChange | internal/xrayupdate/manager.go:625-679 | A bundle directory that exists at two times of a life is whole and has the version and archive digest of its name both times. |
| NodeLives.LifeKeeps | internal/agent/client.go:148-158 | The node invariant holds in every state of every life. |
| NodeRuns.QuiescentServes | internal/xraybinary/resolver.go:22-28 | From any node that keeps the invariant, whenever nothing is pending after a run of operations, the process is what ActivePath and `applied` select. |
| NodeLimits.ServesUnlessLossy | internal/xrayupdate/manager.go:385-463 | The same promise over all lives from an empty node holds if and only if a reported error of the bundle's `applied` write means it was not written. |
| NodeLives.ServesUntilLoss | internal/xrayupdate/manager.go:385-420 | Of one given life on a disk that can lose that write: as long as no operation took a course that only a lost write allows, Xray serves whenever nothing is pending. |
| NodeLimits.LossyNodeStopsServing | internal/xrayupdate/manager.go:433-444 | For every valid request and release there is a life that ends with nothing pending, a configuration applied and nothing running. |
| NodeRuns.ApplyLeavesAnOutcome | internal/xrayruntime/manager.go:240-296 | An apply on a settled node leaves its record pending, confirmed or undone, or leaves every record as it was. |
| NodeRuns.InstallLeavesAnOutcome | internal/xrayupdate/manager.go:380-420 | The same for a bundle install. |
| NodeProgress.ConfigRecovers | internal/xrayruntime/manager.go:304-329 | Recovery of the configuration returns nil from every invariant state when its steps succeed. |
| NodeProgress.BundleRecovers | internal/xrayupdate/manager.go:422-463 | When its steps succeed, recovery of the bundle returns nil from an invariant state if and only if the node is not stuck. |
| NodeLimits.ReportedUnlessLosses | internal/xrayruntime/manager.go:394-431 | Over all nodes: every undone attempt leaves a rolled_back record if and only if no step can succeed and report an error. |
| NodeLimits.MisreportsExactly | internal/xrayruntime/manager.go:362-431 | Of one given node and script: recovery undoes an attempt without a rolled_back record if and only if the attempt is not confirmable, every step up to the removal of `pending` succeeds, that removal happens and reports an error, and the failure record after it lands. |
| ConfigProofs.ApplyFresh | internal/xrayruntime/manager.go:121-302 | A request for a newer version keeps the invariant, never touches bundle files, and ends pending, confirmed or undone, or with all records unchanged; success names the new state, `previous` and a cleared failure. |
| ConfigProofs.ApplyRepeat | internal/xrayruntime/manager.go:151-175 | On a settled node a request that is not newer changes at most the failure record and the store, and success returns the stored state. |
| ConfigProofs.ApplyBlocked | internal/xrayruntime/manager.go:226-232 | While an attempt is pending a request either confirms that attempt or changes no pair. |
| ConfigProofs.RecoverKeeps | internal/xrayruntime/manager.go:304-329 | An interrupted attempt recovers to one of its two ends, and nil means it got there. |
| ConfigProofs.RecoverInvariant | internal/xrayruntime/manager.go:304-329 | Recovery keeps the node invariant wherever it stops, and returning nil means nothing is pending. |
| ConfigProofs.RollbackResultKeeps | internal/xrayruntime/manager.go:362-431 | A rollback keeps the record or restores the old pair with a failure record; success means a rolled_back one. |
| BundleProofs.InstallFresh | internal/xrayupdate/manager.go:314-420 | A release that is not applied yet keeps the invariant, never touches configuration files, and ends pending, confirmed or undone, or with all records unchanged. |
| BundleProofs.InstallRepeat | internal/xrayupdate/manager.go:344-354 | Installing the applied release again changes at most the failure record and the store. |
| BundleProofs.InstallBlocked | internal/xrayupdate/manager.go:314-330 | While an update is pending an install changes nothing at all. |
| BundleProofs.RecoverKeeps | internal/xrayupdate/manager.go:422-463 | An interrupted install recovers to one of its two ends, and nil means it got there. |
| BundleProofs.RecoverInvariant | internal/xrayupdate/manager.go:422-463 | Recovery keeps the node invariant wherever it stops, and returning nil means nothing is pending. |
| BundleProofs.RollbackResultKeeps | internal/xrayupdate/manager.go:465-552 | A rollback keeps the record or restores the old pair with a failure record. |
| ConfigSuccess.NewerIsApplied | internal/xrayruntime/manager.go:121-302 | From every invariant node with nothing pending, with or without an applied version: a valid request for a newer version that the stored verdict does not forbid, with 2V+16 clear steps for V stored versions, returns exactly the requested state; it is current and applied, `previous` is the old target, nothing is pending or failed, and its start is the last one. |
| ConfigSuccess.RepeatIsApplied | internal/xrayruntime/manager.go:163-174 | The applied version again returns the stored state, clears the failure record and restarts nothing. |
| ConfigSuccess.UnacceptableIsIgnored | internal/xrayruntime/manager.go:126-187 | Any other request, whatever its steps do, changes at most the candidate and verdict files. |
| ConfigSuccess.TakesEffectExactly | internal/xrayruntime/manager.go:121-302 | With clear steps a request on a settled node succeeds if and only if it is valid, not forbidden by the stored verdict, and newer than the applied version or equal to it. |
| ConfigRollback.ReachesActivation | internal/xrayruntime/manager.go:121-253 | For a newer request, exactly the counted preparatory steps (candidate, runner, verdict, preflight, deletions with their sync, version file) decide: if all succeed the attempt is activated, otherwise no record changed and nothing was started. |
| ConfigRollback.FailingCandidateIsRolledBack | internal/xrayruntime/manager.go:263-288 | If then the sync, the restart, the previous link or the applied record fails, the apply returns rolled_back with that step's code, the old pair is current and applied, the failure record says so, and the old configuration was started last, or nothing runs when there was none. |
| ConfigRollback.FailingSwitchIsWithdrawn | internal/xrayruntime/manager.go:254-262 | If the link cannot be switched the pending record is withdrawn, no record changed and nothing was started. |
| ConfigRollback.RecordedVersionStays | internal/xrayruntime/manager.go:285-301 | Once the applied record is written nothing undoes the new version, whatever the remaining steps do. |
| ConfigRollback.RecoverRollsBack | internal/xrayruntime/manager.go:324-431 | A clear recovery of an attempt that cannot be confirmed leaves exactly the old pair, the rolled_back record and the old configuration started last. |
| ConfigDrift.SuccessVerifies | internal/xrayruntime/manager.go:121-302 | On any disk, however its files were changed, with any failures: a successful apply, repair included, leaves the requested version recorded, selected and intact, nothing pending and no failure. |
| ConfigDrift.DriftIsRepaired | internal/xrayruntime/manager.go:163-219 | If the applied version's file or link drifted and the previous link is absent or verifies, requesting the version again with clear steps installs it under its plain or its repair name, selects, records and starts it. |
| BundleSuccess.NewIsInstalled | internal/xrayupdate/manager.go:314-420 | From every invariant node with nothing pending, with and without a configuration, with and without an applied bundle: a valid release that is not the applied one, whose name is free, with 2V+16 clear steps, is installed exactly; it is current and applied, `previous` is the old target, nothing is pending or failed; with a configuration it was started last, without one nothing started. |
| BundleSuccess.RepeatIsInstalled | internal/xrayupdate/manager.go:344-356 | The applied release again returns the stored state, clears the failure record and restarts nothing. |
| BundleSuccess.UnacceptableIsIgnored | internal/xrayupdate/manager.go:314-369 | Any other release, whatever its steps do, changes at most the store. |
| BundleSuccess.TakesEffectExactly | internal/xrayupdate/manager.go:314-420 | With clear steps a release on a settled node succeeds if and only if it is valid, no surviving directory of another Xray version has its name, and it repeats the applied one or the configuration in use can be read. |
| BundleSuccess.RejectedCandidateChangesNothing | internal/xrayupdate/manager.go:371-380 | On any disk: an unpacked candidate that does not accept the configuration in use changes no file and starts nothing. |
| BundleRollback.ReachesBundleActivation | internal/xrayupdate/manager.go:324-387 | For a new release, exactly the counted preparatory steps (deletions with their sync, unpacking, version check, configuration check, preflight) decide: if all succeed the candidate is activated, otherwise no record changed and nothing was stopped or started. |
| BundleRollback.FailingBundleIsRolledBack | internal/xrayupdate/manager.go:388-409 | If then the stop, the link, the start, the previous link or the applied record fails, the install returns rolled_back with that step's code, the old pair and failure record are in place, and with a configuration the old bundle or the bootstrap binary was started last. |
| BundleRollback.RecordedBundleStays | internal/xrayupdate/manager.go:406-419 | Once the applied record is written nothing undoes the new bundle, whatever the remaining steps do. |
| BundleRollback.RecoverRollsBackBundle | internal/xrayupdate/manager.go:445-552 | A clear recovery of an update that cannot be confirmed leaves exactly the old pair, the rolled_back record and, with a configuration, the old bundle started last. |
| NodeUpgrades.RequestTakesEffect | internal/xrayruntime/manager.go:121-302 | In every life, a clear apply on a node with nothing pending makes an acceptable version selected, recorded and intact, and changes no record for any other request. |
| NodeUpgrades.ReleaseTakesEffect | internal/xrayupdate/manager.go:314-420 | The same of installs in every life. |
| NodeProgress.ConfigDecides | internal/xrayruntime/manager.go:318-329 | Recovery that returns nil, with any failures on the way, takes the new end exactly when the applied record matches and verifies, and otherwise restores the old pair with a rolled_back record. |
| NodeProgress.BundleDecides | internal/xrayupdate/manager.go:433-463 | The same for bundle recovery. |
| ConfigManager.Manager.Apply | internal/xrayruntime/manager.go:121-302 | The method updates the files exactly as the specification of apply says, for every script of outcomes, and returns its result. |
| ConfigManager.Manager.Recover | internal/xrayruntime/manager.go:304-329 | Equal to the specification of recover. |
| ConfigManager.Manager.RollBack | internal/xrayruntime/manager.go:362-407 | Equal to the specification of rollback, step by step. |
| ConfigManager.Manager.RollBackResult | internal/xrayruntime/manager.go:409-431 | Equal to the specification, including the overwritten failure record. |
| ConfigManager.Manager.Confirm | internal/xrayruntime/manager.go:331-344 | Equal to the specification of confirming an applied state. |
| ConfigManager.Manager.InstallVersion | internal/xrayruntime/manager.go:433-481 | Equal to the specification of installing or repairing a version. |
| ConfigManager.Manager.PruneVersions | internal/xrayruntime/manager.go:562-614 | The deletion loop does what the specification of retention does, stopping at the first failure. |
| ConfigManager.Manager.Validate | internal/xrayconfig/manager.go:107-162 | Equal to the specification of the validator, with its candidate and verdict files. |
| BundleManager.Manager.Install | internal/xrayupdate/manager.go:314-420 | Equal to the specification of install for every script of outcomes. |
| BundleManager.Manager.Recover | internal/xrayupdate/manager.go:422-463 | Equal to the specification of recover. |
| BundleManager.Manager.RollBack | internal/xrayupdate/manager.go:481-530 | Equal to the specification of rollback: prepare, stop, restore or deselect, restart, record. |
| BundleManager.Manager.PrepareController | internal/xrayupdate/manager.go:532-552 | Equal to the specification of selecting a half-undone first install again. |
| BundleManager.Manager.InstallDirectory | internal/xrayupdate/manager.go:625-679 | Equal to the specification of unpacking a bundle or reusing an identical one. |
| BundleManager.Manager.PruneVersions | internal/xrayupdate/manager.go:981-1053 | The deletion loop does what the specification of retention does. |
| Agent.Boot | internal/agent/client.go:148-158 | The two recover calls in order, the second only after the first returned nil. |
| Agent.Live | internal/agent/client.go:148-158 | The manager classes driven through any life from an empty node never leave a dangling target, and serve what their records select whenever nothing is pending. |
| NodeStores.PruneConfigsExactly | internal/xrayruntime/manager.go:562-643 | A prune that returns nil deletes exactly the eligible unprotected versions behind at least five newer ones by (mtime, name); no prune deletes any other or changes one. |
| NodeStores.PruneBundlesExactly | internal/xrayupdate/manager.go:981-1053 | The same for whole bundles with three retained. |
| NodeStores.InstallNeverOverwrites | internal/xrayruntime/manager.go:433-481 | Installing a version, repair included, rewrites no existing file in any store, unless a repair meets its own name of the same nanosecond. |
| NodeStores.InstalledIsRequested | internal/xrayruntime/manager.go:433-481 | What an install hands on has the requested version, digest and content. |
| NodeStores.InstallBundleNeverOverwrites | internal/xrayupdate/manager.go:625-679 | Unpacking a bundle rewrites no existing directory. |
| Retention.DoomedExactly | internal/xrayruntime/manager.go:588-608 | The sort-and-skip loop deletes exactly the unprotected entries whose rank among all entries is at least the retained number. |
| Retention.DeletedBehindNewer | internal/xrayruntime/manager.go:593-604 | A deleted entry has at least the retained number of others that were modified later, or at the same time with greater names. |
| Retention.KeptAmongNewest | internal/xrayruntime/manager.go:593-604 | An unprotected entry that is kept has fewer than that many others modified later. |
| Retention.SortedIsByRank | internal/xrayruntime/manager.go:588-594 | Every sorted listing is the same sequence, so the choice of sorting algorithm does not matter. |
| Retention.Sort | internal/xrayruntime/manager.go:575-599 | The insertion loop turns a listing into its ranking; all three stores use it. |
| ConfigNames.RoundTrip | internal/xrayruntime/manager.go:748-765 | For every nonzero 64-bit version and lower-case digest the parser gives back the pair from the plain and from every repair name. |
| ConfigNames.PathInjective | internal/xrayruntime/manager.go:441-476 | Different targets have different names; plain and repair names never coincide. |
| ConfigNames.NameOrderIsVersionOrder | internal/xrayruntime/manager.go:441-476 | String order of names is numeric order of versions. |
| BundleActivation.DirectoryNameInjective | internal/xrayupdate/manager.go:625-640 | Different bundles have different directory names. |
| VersionGate.AcceptedInOrder | internal/xrayconfig/manager.go:107-162 | In any life with restarts, drift and repair, two accepted requests have nondecreasing versions, and the same version means the same digest and the same stored verdict. |
| VersionGate.AppliedWasAccepted | internal/xrayruntime/manager.go:126-150 | An apply that succeeded had a passing verdict for the version it reports. |
| VersionGate.AppliedInOrder | internal/xrayruntime/manager.go:126-186 | Successful applies never go back in version, even when a repair rolled the node back in between. |
| VersionGate.AppliedIsValidated | internal/xrayruntime/manager.go:126-186 | The applied version never exceeds the last validated one. |
| VersionGate.VerdictIsTheRunners | internal/xrayconfig/manager.go:139-161 | For a valid request beyond the stored verdict, any verdict given or stored is about that request and passed exactly when the candidate was written and the runner's own step succeeded; it was given on the requested content. |
| VersionGate.RejectedCandidateChangesNothing | internal/xrayruntime/manager.go:126-143 | On any disk: if the runner does not accept a new version's candidate, the apply says so or refuses, starts nothing, and changes no file but candidate and verdict. |
| VersionGate.AppliedWasRun | internal/xrayconfig/manager.go:154-161 | Over every life with drift and repair: an apply that succeeded applied a version and digest that the runner itself accepted at that command or an earlier one. |
| SelfUpdate.AlwaysSafe | internal/update/manager.go:237-333 | In every interleaving of install, confirm, launcher steps and crashes: `current` names an installed binary; while an update is pending, `previous` is its previous target, `current` is one of its two targets and both are installed. |
| SelfUpdate.HonestExactlyWhen | deploy/xui-agent-launcher:34-61 | A pending update ends by confirm only with its target selected, by the move to failed or by withdrawal only with its previous target selected: if and only if installs run inside the supervised agent and no release repeats the running version string. |
| SelfUpdate.StrictIsHonest | internal/agent/client.go:78-86 | The positive half, for every run under the strict rules. |
| SelfUpdate.ReuseIsDishonest | internal/update/manager.go:125-140 | With a repeated version string the restarted old binary confirms an update that was never selected. |
| SelfUpdate.StandaloneIsDishonest | internal/update/manager.go:307-333 | A standalone install can switch `current` between the launcher's rollback and its move of the pending file. |
| SelfUpdateRuns.RollsBackOnlyAfterFailure | deploy/xui-agent-launcher:43-59 | In every interleaving a step of launcher or child changes a file only if it is the child's confirmation, or the launcher's rollback after a last child that ended by itself with a status other than 75. |
| SelfUpdateRuns.RetryRelaunches | deploy/xui-agent-launcher:35-50 | After status 75 the launcher changes no file and launches what `current` selects. |
| SelfUpdateRuns.FailureRestoresPrevious | deploy/xui-agent-launcher:47-59 | After any other status with an update pending, the undisturbed launcher ends with the previous target selected and the pending record moved to `failed`. |
| SelfUpdateRuns.UpdateSucceeds | internal/update/manager.go:237-333 | From every safe state in which a validated agent serves and nothing is pending, the undisturbed steps of an update to another binary end with it selected, running and confirmed, the old one as `previous`, and no failure record. |
| SelfUpdate.PruneVersions | internal/update/manager.go:335-410 | The loop keeps every binary except exactly the unprotected ones behind at least three newer ones. |
| SelfUpdate.DoomedExpired | internal/update/manager.go:335-410 | The list an install deletes in the state machine is exactly the expired binaries. |
| EventSpool.AlwaysInvariant | internal/eventspool/store.go:116-249 | In every life, reopened any number of times: stored keys are exactly acked+1 to next-1, the counters are their number and total size, neither cap is exceeded, and the stream keeps its first identity. |
| EventSpool.EnqueueKeeps | internal/eventspool/store.go:188-249 | An accepted event gets the next sequence, extends the history by one, and its side effect is stored with it; the last-seen time of its kind, heartbeats excepted, is the event's. |
| EventSpool.EnqueueAccepts | internal/eventspool/store.go:188-222 | An event is accepted if and only if kind, time and sizes are legal, neither cap would be exceeded and a checkpoint has a key. |
| EventSpool.AcknowledgeKeeps | internal/eventspool/store.go:312-354 | An acknowledgement fails exactly for a foreign stream or an unassigned sequence, the accounting branch is unreachable, and success advances the acknowledged sequence, never back, and records the time. |
| EventSpool.BatchIsLongestPrefix | internal/eventspool/store.go:276-310 | A batch starts at acked+1, is the longest prefix within the asked number of events if that is 1 to 500, else 500, and the asked bytes if 1 to 4194304, else that, is nonempty exactly when the queue is, and holds the events as accepted. |
| EventSpool.LongestPrefixIsUnique | internal/eventspool/store.go:287-299 | At most one batch length satisfies that description. |
| EventStore.Store.Enqueue | internal/eventspool/store.go:188-249 | The transaction stores event, side effect and counters together or changes nothing, as specified. |
| EventStore.Store.Batch | internal/eventspool/store.go:276-310 | The cursor loop computes the specified batch. |
| EventStore.Store.Acknowledge | internal/eventspool/store.go:312-354 | The method does what the specification says and never reports inconsistent accounting. |
| EventStore.DeleteThrough | internal/eventspool/store.go:328-339 | The deletion loop equals its recursive specification. |
| Uploader.NothingIsLost | internal/telemetry/uploader.go:62-132 | With lost, late and repeated requests, lost replies, restarts and concurrent enqueues, every accepted event is queued, or the center has it unchanged together with everything before it. |
| Uploader.AcknowledgementIsExact | internal/telemetry/uploader.go:119-132 | With events enqueued between batch and answer, an acknowledgement is accepted exactly inside the batch, and then removes exactly the events up to it. |
| Uploader.AnswersAreNeverBeyond | internal/telemetry/uploader.go:119-132 | In every run the answer of a center that tells what it has, whatever arrived late or twice, is never beyond the batch in flight, and is refused only if it acknowledges nothing new. |
| Uploader.RoundDelivers | internal/telemetry/uploader.go:62-132 | From every reachable state a round in which nothing is lost acknowledges exactly the whole batch. |
| Uploader.EverythingCanBeDelivered | internal/telemetry/uploader.go:33-132 | After any run there is a continuation that delivers everything accepted so far, and the center has it without a gap. |
| Uploader.UploadOnce | internal/telemetry/uploader.go:62-132 | One upload does nothing to the spool but advance the acknowledged sequence by an accepted answer; any other answer leaves what the concurrent enqueues made of it. |
| AccessLine.ReadBoundedLine | internal/telemetry/access.go:202-228 | The result depends on the bytes alone, not on how they were cut: length, completeness, the whole line unless over 65536 bytes, and the last 64 bytes. |
| AccessLine.Anchor.Append | internal/telemetry/access.go:230-240 | The in-place buffer holds the last 64 bytes of everything appended. |
| AccessLine.Anchor.Discard | internal/telemetry/access.go:235-238 | The shift within the array drops exactly the oldest bytes. |
| AccessLog.TailsExactlyOnce | internal/telemetry/access.go:71-192 | After any polls stopped anywhere, with a growing log, any rotations between polls, a full spool and other producers: the access events ever accepted are the events of the complete lines of the visited generations, from the first checkpoint to the current one, in order and once each, and the position is behind a newline or a start. |
| AccessStart.TailingStartsAtFirstPoll | internal/telemetry/access.go:81-92 | In every run the generation and offset that tailing started from are those of the current file at the first poll, read off the actions alone; before it there is no event, and after it the accepted events are exactly those of the bytes consumed from there. |
| AccessStart.AppendedIsConsumed | internal/telemetry/access.go:146-192 | Every byte appended to that file after the first poll is consumed, in order, once the position has passed it or left the file. |
| AccessStart.ParserSeesTheLine | internal/telemetry/access.go:162-190 | A line contributes what the parser makes of its bytes without the newline, and nothing if it is over 65536 bytes or not kept. |
| AccessLog.SkipsExactly | internal/telemetry/access.go:110-144 | In every run the generations passed over, already or at the next move, are exactly as many as the rotations that came before the collector had left an older generation. |
| AccessLog.TimelyRotationsSkipNothing | internal/telemetry/access.go:110-144 | Without such rotations every generation from the first one on is visited and the position is at most one behind the current file. |
| AccessLog.SkippedFile | internal/telemetry/access.go:110-144 | Two rotations between two polls: for every line there is a run in which a complete line is never read although its file is still there. |
| AccessLog.NeverMistakenForTruncated | internal/telemetry/access.go:242-299 | In every run the stored anchor matches every later extension of the file, with 1 to 64 bytes whenever the offset is positive, and another file of that length exactly when those bytes have the same digest. |
| AccessLog.LeavesRotatedFileIffDrained | internal/telemetry/access.go:110-144 | A poll leaves a rotated file without newline behind the position if and only if nothing is left in it; otherwise it changes nothing. |
| AccessLog.CommitKeeps | internal/telemetry/access.go:162-190 | A committed line moves position, anchor and events together. |
| AccessCollector.DrainNext | internal/telemetry/access.go:158-190 | Reading with the buffered reader and committing one line is the specified line step. |
| AccessCollector.Drain | internal/telemetry/access.go:146-192 | The loop is a number of line steps of the state machine. |
| AccessCollector.CollectOnce | internal/telemetry/access.go:71-144 | One poll, rotation included, is a poll of the state machine followed by line steps. |
| AccessCollector.PollsKeepExactlyOnce | internal/telemetry/access.go:71-192 | A poll and any number of its line steps keep the exactly-once invariant. |
| AccessCollector.PollReadsEverything | internal/telemetry/access.go:94-192 | In every state a run can reach, an uninterrupted poll consumes every complete line behind the position in the file the position is in, unless the spool refuses a line. |
| AccessCollector.TruncatedLogIsReadAgain | internal/telemetry/access.go:94-108 | For a file shorter than the stored offset, or whose anchor does not match, a poll stores offset 0 without an anchor and then enqueues exactly the events of the file from its start. |
| Traffic.SnapshotIsTheReading | internal/telemetry/xray.go:77-97 | A snapshot has exactly the users of the reading with the counters that were read, and so have the stored counters. |
| Traffic.MeasureAll | internal/telemetry/xray.go:77-98 | The loop computes the specified snapshot and the counters to store. |
| Traffic.StreamIsMonotone | internal/telemetry/xray.go:68-101 | In every run the stored snapshots are what the spool accepted; per user and runtime the first report is epoch 0, the epoch rises by one from one report to the next exactly when a counter fell, and within an epoch both counters never decrease. |
| Traffic.ContiguousIsMonotone | internal/telemetry/xray.go:68-101 | Of any one run, runtime ids coming back or not: if no id came back in the stored snapshots after another one, they are monotone. |
| Traffic.MonotoneUnlessRecurrence | internal/telemetry/xray.go:84-90 | Monotonicity holds in every run if and only if no runtime id comes back after another one. |
| Traffic.CollectInto | internal/telemetry/xray.go:68-101 | The collector over the real spool does what the specification says. |
| Stability.WaitForReplacement | internal/xrayruntime/controller.go:94-123 | The wait succeeds exactly at the first sample that ends a run of consecutive samples of one pid, positive and not the old one, over at least the stable period, unless the PID file became unreadable first; otherwise it times out. |

## Left out

- Downloads, HTTP retries, TLS, the websocket session, enrollment, status collection and the route webhook server: network plumbing. Releases and configurations enter as verified inputs.
- Archive reading, gzip, JSON, regular expressions, host, port and time-zone parsing: opaque. The access-line parser is an arbitrary function.
- Trimming and lower-casing of a request's digest: requests carry a canonical digest.
- Temporary files, modes and the order of file syncs: a durable step is atomic. Torn writes are not modelled.
- Deleting a bundle directory file by file: one step. A crash inside it leaves a directory that no longer verifies, which retention ignores.
- The supervisor that restarts Xray on its own, /proc inspection and signals: hidden behind the outcome of a restart or stop.
- Cleanup of stale and legacy downloads: one check that may fail.
- Error texts, error counters and drop counters (`RecordError`, `RecordDrop`) and event identifiers: they do not feed back into the protocols.
- Sorting the users of a traffic snapshot by name: a snapshot is a map.
- Online snapshots, which are enqueued without state.
- Health deadline, backoff and jitter of the control session: a child may exit at any time with any status.
- A rotation in the middle of a poll, and a rotated file that can no longer be found: rotations fall between polls, and old files stay.
- Reuse of an inode by a later log file: generations have distinct identities.
- The instant between reading a PID and reading the clock: a sample carries one time.
- VersionGate.AppliedInOrder: the `previous` link and the JSON records do not drift, only version files and `current`.
- NodeLives.BootSettles: of a start whose steps fail it says nothing, because a controller that keeps failing never recovers.
- ConfigRollback.FailingCandidateIsRolledBack: one failing step followed by clear ones; with more failures the result is what ConfigProofs.ApplyFresh allows.
- BundleRollback.FailingBundleIsRolledBack: one failing step followed by clear ones, as on the configuration side.
- Uploader.EverythingCanBeDelivered: a compressed request over its size limit is not modelled, and the center answers with the highest sequence it has without a gap.
- SelfUpdateRuns.UpdateSucceeds: one undisturbed order of steps; other orders and failures are in the results about every run.
- AccessLog.TailsExactlyOnce: says that nothing of a visited generation is lost or repeated, not that every line is reached; a line dated at or before 1970 is rejected each time.
- SelfUpdate.AlwaysSafe: allows one install at a time.
