# PocoDDSRuntime: verified models of the transactions and the runtime state machines

This project models, in Dafny, the parts of PocoDDSRuntime whose promises range over whole
runs: transactions that must survive a crash or a failed step at any point, a lock protocol,
and a few state machines with an exact history. It proves what they promise, and where the
code promises more than it keeps, the exact condition under which it does.

How the models work:

- A command that changes files is a method of a class whose fields are the disk. Each rename,
  copy, move, journal write or unlink is one step, and `Step` decides without any restriction
  whether it is carried out, raises, or is the point where the process dies (`Faults.Status`).
  A contract that holds however a method ends therefore holds at every crash point. Python
  exceptions are `Raised`, and `:-` passes them on as the source does. `disturbed` records
  whether any step went wrong; clauses about undisturbed runs show that the commands do
  succeed when they should.
- A digest stands for the contents it was computed from. Random ids never repeat.
- Choices of the outside world (health probes, commands, clocks, schedulers, handlers,
  signature and policy checks) are arguments or unconstrained values.
- The loops and in-place updates of the source are loops and field updates here; each method
  is proved against a specification function or an invariant about which the theorems are.

| file | part of the repository |
|---|---|
| `Faults.dfy` | outcomes of steps and commands |
| `UpgradeDisk.dfy`, `UpgradeManager.dfy`, `Rollback.dfy` | release upgrade: apply, recover, manual rollback |
| `UpgradeHistory.dfy`, `Aftermath.dfy` | what any run of those commands makes of the state; the commands on any disk, also after a rollback that was interrupted |
| `StateLock.dfy` | the stale-aware lock file as a protocol between processes |
| `RestorePoint.dfy` | restore of a recovery point |
| `PluginManager.dfy`, `Dependencies.dfy` | plugin install, rollback and recover; dependency lists |
| `Pipeline.dfy` | checkpointed release pipeline |
| `ServiceEndpoint.dfy`, `Envelope.dfy` | DDS service endpoint; wire form of an envelope |
| `Text.dfy`, `SubprocessConfig.dfy` | subprocess configuration: parser, printer, apply, remove |
| `RestartBudget.dfy`, `BundleMonitor.dfy` | launcher restart budget; bundle repository debounce |
| `Compatibility.dfy` | compatibility check of public surfaces |

## What the code does not keep

- The lock takeover has a race: between reading the lock again and unlinking it, another
  process can take it over and enter. As long as no holder is killed or fails to unlink its
  lock, mutual exclusion holds in every schedule exactly when the lock is not found stale by
  two processes (`StateLock.MutualExclusion`). When that may happen too, it takes two
  processes with a stale lock, or three with a lock that is free or held by one of them
  (`StateLock.MutualExclusionDespiteDeaths`).
- A second `apply` over an interrupted upgrade is refused at the lock, and its handler then
  deletes the journal that `recover` needs. The check that says "run recover first" is reached
  only after the lock was removed by hand. No mutable directory is lost even so
  (`UpgradeManager.Host.Apply`, `UpgradeManager.Operate`).
- `recover` refuses some interrupted upgrades. `UpgradeDisk.RefusalHidesNoLoss` says exactly
  which, and that in each of them the old release is already back, or back with its state
  waiting in staging, or the new release has passed its health check.
- A failure while the lock file is written leaves the file behind, and nothing to recover:
  further upgrades and plugin commands are refused until it is removed by hand
  (`UpgradeManager.Host.AcquireLock`, `PluginManager.PluginHost.AcquireLock`).
- The health sentinel that is to prove that the new release runs must not be shipped, but it
  may be the version marker, which the upgrade itself writes: then the probe passes at once
  (`UpgradeManager.SentinelIsNew`).
- A manual rollback has no journal. When it is interrupted, state may be left in a backup,
  where nothing tells of it: a later upgrade starts normally, and when it succeeds, having
  left alone the directories whose state is elsewhere, it has conserved all state exactly
  when no sibling that it pruned held any (`UpgradeHistory.SuccessConserves`). Without
  rollbacks and removals of the lock by hand retention is harmless
  (`UpgradeHistory.RetentionIsHarmless`). Another rollback to the same backup brings the state
  back (`Aftermath.RollBackAgain`), unless the installed release has made one of the
  directories anew; then it ends with an exception, having changed nothing
  (`Rollback.RollBack`).
- An upgrade whose success message cannot be printed returns 1, although the new release is
  installed and nothing is left to recover (`UpgradeManager.Host.Apply`). A plugin install or
  rollback whose success message cannot be printed is undone, after its journal is gone; when
  undoing fails as well, no journal tells (`PluginManager.NotInstalled` and
  `PluginManager.NotRolledBack` say what is left then).
- A manual rollback without an installed release that fails once the backup is in place is
  not undone, not even when the verification failed (`Rollback.RollBack`).
- A cached response carries the operation of the first request with its id, so a repeat gets
  its own operation exactly when the two agree (`ServiceEndpoint.RepeatedOperation`).
- A staged file whose copy or digest check failed is not listed and stays beside its
  destination, and so does a copy of the archive that could not be put back
  (`RestorePoint.Store.Restore`); a failed last audit entry turns result 0 into 3.
- A plugin install overwrites a bundle of another symbolic name that has the artifact's
  canonical file name, can leave what had that name under `failed/`, and deletes an existing
  journal when it is refused (`PluginManager.PluginHost.Install`). `recover` needs the lock
  file, which a crash leaves behind, to be gone. Nothing is ever lost when every bundle and
  backup has its artifact's canonical file name at the start and no two artifacts of different
  symbolic names share one (`PluginManager.ClearNamesLoseNothing`); a name that is taken does
  cost its bundle (`PluginManager.InstallOverwrites`).
- When an install dies after it has moved the replaced plugin away and before its journal says
  so, `recover` reports success and removes the journal, but that plugin is only among the
  backups (`PluginManager.RecoveredPlugin` says exactly when it is back in place).
- A plugin rollback whose second replace fails onto a name that is taken destroys the backup
  it was to restore (`PluginManager.HandlerLosesBackup`).
- A constraint added to the configuration schema is not reported as breaking, although it can
  reject values that were accepted; `Compatibility.StaysAccepted` says exactly when. And "no
  error" from one version to the next composes for all surfaces exactly when the last major
  number is higher than the first, or neither step raises it: whatever is removed under a
  higher number in between goes unreported (`Compatibility.ComposesExactly`).
- The computed envelope size wraps around in 32 bits; it bounds the encoded length exactly
  while it does not (`Envelope.SizeBoundsLength`).

## Model

| member | source | states |
|---|---|---|
| UpgradeDisk.ShiftOneMore | tools/upgrade_manager.py:320-326 | moving one more directory extends the set of those moved, so a transfer stopped anywhere is the transfer of what has been moved |
| UpgradeDisk.SoundConserves | tools/upgrade_manager.py:712-747 | in every state the disk can be found in, with any journal or none, each mutable directory of the installed release is in exactly one tree with its latest content |
| UpgradeDisk.SplitConserves | tools/upgrade_manager.py:307-327 | two trees that hold the state between them, all others holding none, conserve it |
| UpgradeDisk.OneHolderConserves | tools/upgrade_manager.py:712-713 | a single tree that holds all state conserves it |
| UpgradeDisk.TakingBack | tools/upgrade_manager.py:884-893 | a transfer to the backup, stopped anywhere, keeps the old release parked there, and what was moved is exactly what is less left to do |
| UpgradeDisk.GivingOut | tools/upgrade_manager.py:715-718 | a transfer from the backup to the staged tree, stopped anywhere, keeps the state between the two |
| UpgradeDisk.PuttingBack | tools/upgrade_manager.py:894-896 | with all state in the backup, renaming it to the target restores the old release completely |
| UpgradeDisk.SettingFailedAside | tools/upgrade_manager.py:886-889 | setting the new release aside keeps the old one parked and leaves one step less |
| UpgradeDisk.Activating | tools/upgrade_manager.py:719-725 | activation keeps the old release parked with the state in the target; the restore after a failed activation leaves the state stranded in staging |
| UpgradeDisk.ProbingKeepsDisk | tools/upgrade_manager.py:729-732 | whatever the probed release makes of its files and directories, the disk stays sound, with what the target has then as the state that is conserved |
| UpgradeDisk.PreparationKeepsState | tools/upgrade_manager.py:684-710 | before the first rename every journal entry describes the disk truly and all state is in the target |
| UpgradeDisk.PruningKeepsState | tools/upgrade_manager.py:748-756 | after the health check, pruning any backups, even this one's, leaves the installed release and its state |
| UpgradeDisk.ApartFromTarget | tools/upgrade_manager.py:732-747 | once nothing of the upgrade is left, every tree but the target is as it was |
| UpgradeDisk.RefusalHidesNoLoss | tools/upgrade_manager.py:882-920 | recover refuses an upgrade if and only if the old release is already back in a later phase, or is stranded from its state in staging, or the new release is adopted; nothing is missing in any of them |
| UpgradeManager.SentinelIsNew | tools/upgrade_manager.py:540-541 | a health sentinel that is not shipped is found if and only if it was written after the activation, or is the version marker and was not removed |
| UpgradeManager.Host.AcquireLock | tools/upgrade_manager.py:254-266 | succeeds only if the lock was free, and never takes a lock that exists; a failure may leave the new file behind |
| UpgradeManager.Host.RenamePath | tools/upgrade_manager.py:565-597 | a rename happens as a whole or not at all, and never onto a tree that has anything in it |
| UpgradeManager.Host.VerifyInventory | tools/upgrade_manager.py:301-304 | passes only when the tree's files are exactly those expected |
| UpgradeManager.Host.TransferMutable | tools/upgrade_manager.py:307-327 | however it ends, a set of directories has moved and the rest is untouched; nothing moves when the destination has one of them |
| UpgradeManager.Host.StageFiles | tools/upgrade_manager.py:502-523 | staging holds exactly the manifest's files and the marker, or the call fails with only the staging tree touched |
| UpgradeManager.Host.Prepare | tools/upgrade_manager.py:631-710 | refusals change nothing; otherwise only lock, journal and staging have changed, and the journal records what was installed |
| UpgradeManager.Host.MoveAside | tools/upgrade_manager.py:711-716 | the old release becomes the backup with all its state, at every crash point described by the journal |
| UpgradeManager.Host.HandOver | tools/upgrade_manager.py:715-718 | the state moves to the staged tree and the journal says so only when all has moved |
| UpgradeManager.Host.Activate | tools/upgrade_manager.py:719-728 | the staged release becomes the target with all state; a failed rename puts the old release back |
| UpgradeManager.Host.Probe | tools/upgrade_manager.py:526-557 | files of the target and mutable directories of the new release may come, change and go while it is probed, and nothing else; the disk stays sound |
| UpgradeManager.Host.PutBack | tools/upgrade_manager.py:894-896 | the backup becomes the target again and matches the recorded inventory |
| UpgradeManager.Host.SwapBack | tools/upgrade_manager.py:733-739 | an unhealthy release is set aside and the old one is back with all state |
| UpgradeManager.Host.Withdraw | tools/upgrade_manager.py:733-747 | the health failure path ends with the old release, no journal and no lock |
| UpgradeManager.Host.PruneBackups | tools/upgrade_manager.py:600-614 | removes backups of the list only, one after the other; the target and its state stay |
| UpgradeManager.Host.Commit | tools/upgrade_manager.py:748-761 | the healthy path ends with the new release, all state, no journal and no lock, also when the report after that, and only that, fails |
| UpgradeManager.Host.Switch | tools/upgrade_manager.py:711-728 | from the staged release to the installed one, sound wherever it stops, other trees left alone |
| UpgradeManager.Host.Decide | tools/upgrade_manager.py:729-761 | the probed release stays or the old one comes back, by what the probe says |
| UpgradeManager.Host.Install | tools/upgrade_manager.py:711-761 | from the staged release to either end, sound wherever it stops; it ends in the new release exactly when it comes to its report |
| UpgradeManager.Host.TryApply | tools/upgrade_manager.py:631-761 | the try block: 0 is the new release with the old state, 2 is the old release with its state; an exception after the lock is gone is a failed report of the former |
| UpgradeManager.Host.CleanUp | tools/upgrade_manager.py:762-778 | cleans up before the first rename, keeps all evidence afterwards, and removes a foreign journal only when refused at the lock |
| UpgradeManager.Host.HandleError | tools/upgrade_manager.py:762-778 | after an error before the first rename every tree is as it was; after a later one nothing is touched; the disk stays sound |
| UpgradeManager.Host.Apply | tools/upgrade_manager.py:617-778 | 0 is exactly the new release, but for the files that came, changed or went while it was probed, with all state of the old as it left that, and the old one is kept as a backup unless pruned; 2 leaves every tree as before; 1 with nothing left over has changed no tree, or only the report of the new release failed; any end keeps the disk recoverable and other upgrades' trees alone; a journal left is this upgrade's, and without one the target has all state |
| UpgradeManager.Host.ClearTarget | tools/upgrade_manager.py:884-893 | all state goes back to the backup and the target is out of the way, each step leaving one less to do |
| UpgradeManager.Host.BringBack | tools/upgrade_manager.py:884-896 | the old release goes back in place of the target; steps done and steps remaining always add up |
| UpgradeManager.Host.RestoreBackup | tools/upgrade_manager.py:882-898 | with a backup the old release comes back completely; steps done and steps remaining always add up |
| UpgradeManager.Host.Reconcile | tools/upgrade_manager.py:882-920 | whichever outcome is chosen, success means the journalled old release, and it succeeds undisturbed exactly when `Recoverable` |
| UpgradeManager.Host.Settle | tools/upgrade_manager.py:921-926 | staging, journal and lock go in this order, and the target stays |
| UpgradeManager.Host.TryRecover | tools/upgrade_manager.py:850-928 | the try block of recover with the same guarantees at every crash point |
| UpgradeManager.Host.Recover | tools/upgrade_manager.py:838-936 | 0 means the target has exactly the journalled inventory and all state, never the new release, and nothing of the upgrade is left; a refusal changes nothing; it may be interrupted and run again while the backup exists |
| UpgradeManager.Operate | tools/upgrade_manager.py:617-936 | any number of applies and recovers, each ended anywhere: every mutable directory there was, but those that a probed release of one of the commands removed, is still there, in exactly one tree, and its content is what it was or what such a release wrote |
| UpgradeManager.RecoverRepeatedly | tools/upgrade_manager.py:882-928 | any number of interrupted recovers do together no more than was to be done at the start, and an undisturbed one completes |
| Rollback.PairShift | tools/upgrade_manager.py:804-805 | a transfer between the two trees of a rollback, stopped anywhere, keeps the pair |
| Rollback.PairUnique | tools/upgrade_manager.py:818-831 | once all state is back in the active release, every tree is as it was |
| Rollback.Exchange | tools/upgrade_manager.py:803-817 | the backup becomes the target with all state exactly when it comes to the report, or it stops in one of three known places; if both trees have a directory, nothing changes |
| Rollback.UndoRename | tools/upgrade_manager.py:819-825 | the backup that had become the target goes back, its state first |
| Rollback.UndoMove | tools/upgrade_manager.py:826-831 | state that had reached the backup goes back to the active release |
| Rollback.Compensate | tools/upgrade_manager.py:818-835 | from each of those places the active release ends as the target with all its state; if both trees have a directory, the handler fails |
| Rollback.UndoneIsUnique | tools/upgrade_manager.py:818-831 | once all state is back in the active release, every tree is as it was, but for state that the backup had |
| Rollback.SoundIsReady | tools/upgrade_manager.py:781-801 | on a sound disk the backup holds no state, so that nothing clashes and undoing gives back the very same trees |
| Rollback.RollBackInstalled | tools/upgrade_manager.py:803-835 | with a release installed: 0 is the exchange, 1 is either the exchange whose report failed or its undoing, and all state is where it can be found |
| Rollback.RollBack | tools/upgrade_manager.py:781-835 | 0 is the backup's inventory with all state; 1 leaves every tree as it was, but for the target having all state, unless only the report failed or no release was installed; even a crash conserves the state; a directory in both trees makes it fail with nothing changed; undisturbed it succeeds exactly without such a clash |
| Aftermath.StateInSibling | tools/upgrade_manager.py:804-811 | state left in a sibling without a journal: no upgrade leaves such a disk, and the state is lost with the sibling |
| Aftermath.RollBackAgain | tools/upgrade_manager.py:803-814 | with all state in the target and the backup, another rollback to it has no clash and starts with all of it |
| UpgradeHistory.FlightHolds | tools/upgrade_manager.py:711-747 | at every point of an upgrade its own trees hold exactly the state of the installed release |
| UpgradeHistory.StepKeepsSafe | tools/upgrade_manager.py:617-936 | no command loses any content, but an apply on a clear disk what its probed release overwrites or removes in the target and what pruned backups held |
| UpgradeHistory.StepInventsNothing | tools/upgrade_manager.py:617-936 | no command brings any content to the disk but what the probed release of an apply writes |
| UpgradeHistory.HoldsAfterSuccess | tools/upgrade_manager.py:711-761 | after a success the target has what the probed release left, and every sibling that is still there what it had |
| UpgradeHistory.SuccessConserves | tools/upgrade_manager.py:600-614 | when an apply succeeds, also one whose pruning failed half-way, all state is conserved if and only if no sibling that went held any; provided no directory was written or removed whose state is in a sibling |
| UpgradeHistory.RunKeepsSafe | tools/upgrade_manager.py:617-936 | in every run, what is safe at any moment is safe at the end, unless a later apply of the run found it where it could overwrite or prune it |
| UpgradeHistory.RunInventsNothing | tools/upgrade_manager.py:617-936 | in every run, what is there at the end was there at any given moment, or a later probed release wrote it |
| UpgradeHistory.RetentionIsHarmless | tools/upgrade_manager.py:600-761 | in every run of applies and recovers alone, what is lost was overwritten or removed in the target by a probed release, and never pruned |
| Aftermath.SteadyIsLawful | tools/upgrade_manager.py:711-761 | between commands the state of a host is where its journal says |
| Aftermath.ApplyAnywhere | tools/upgrade_manager.py:617-778 | apply on any disk without an unfinished upgrade does what `Next` says of it, whatever the siblings hold; an undisturbed success has pruned all it was to prune of what holds state |
| Aftermath.ApplyBlocked | tools/upgrade_manager.py:653-664 | over an unfinished upgrade or a lock apply moves nothing, also when the lock was removed by hand |
| Aftermath.RecoverAnywhere | tools/upgrade_manager.py:838-936 | recover on any disk: without a journal nothing happens, else only trees of that upgrade change and their state stays |
| Aftermath.RollBackAnywhere | tools/upgrade_manager.py:781-835 | a rollback, interrupted anywhere and from any disk without an unfinished upgrade, touches only the target, its backup and the displaced tree, and these hold the state that they held |
| Aftermath.RollBackBlocked | tools/upgrade_manager.py:792-795 | over an unfinished upgrade or a lock a rollback changes nothing |
| Aftermath.Operate | tools/upgrade_manager.py:617-936 | any number of applies, recovers, rollbacks and removals of the lock by hand, each ended anywhere, from any disk, are a run that starts with the world that was found; so `RunKeepsSafe` and `RunInventsNothing` hold of it from start to end, and from any moment of it |
| StateLock.StepKeepsGuarded | tools/release_pipeline.py:65-88 | no step of any process breaks the invariant that the holder made the current file and nobody takes it over, unless it is killed or cannot unlink |
| StateLock.ExclusiveUnlessStale | tools/release_pipeline.py:60-88 | without a stale lock, every orderly schedule keeps processes apart and no live lock is ever unlinked by a waiter |
| StateLock.SoleProcessRecovers | tools/release_pipeline.py:69-78 | a process alone with a stale lock gets in |
| StateLock.StaleLockAdmitsTwo | tools/release_pipeline.py:72-77 | two processes with a stale lock have a schedule in which both are inside |
| StateLock.MutualExclusion | tools/release_pipeline.py:60-88 | all orderly schedules are exclusive if and only if the lock is not stale with two processes waiting; the same protocol is at tools/pdr.py:234-277 |
| StateLock.StepKeepsPaired | tools/release_pipeline.py:60-88 | two processes stay apart until one dies, and then the other is alone |
| StateLock.StepKeepsBarred | tools/release_pipeline.py:69-73 | behind a lock whose owner lives elsewhere, or that names none, nobody ever gets in |
| StateLock.KilledHolderAdmitsTwo | tools/release_pipeline.py:69-88 | when a holder is killed, two waiting processes have a schedule in which both are inside |
| StateLock.MutualExclusionDespiteDeaths | tools/release_pipeline.py:60-88 | with processes killed at any point and failing unlinks, all schedules are exclusive if and only if fewer than two processes find the lock stale and, if it is free or held by a process of the system, there are fewer than three |
| RestorePoint.Store.ArchiveTargets | tools/pdr.py:1713-1761 | every existing destination is copied, or no archive is published |
| RestorePoint.Store.StageSources | tools/pdr.py:1832-1846 | the staged files are exactly the manifest's, and at most one unlisted file stays behind on failure |
| RestorePoint.Store.CheckUnchanged | tools/pdr.py:1764-1768 | passes only if every destination is what its entry says |
| RestorePoint.Store.Publish | tools/pdr.py:1857-1864 | afterwards every destination is its staged file, or absent without one |
| RestorePoint.Store.VerifyDestinations | tools/pdr.py:1865-1879 | passes only if every destination is the manifest's and the snapshots are valid |
| RestorePoint.Store.PutCopy | tools/pdr.py:1899-1902 | the destination is replaced by a copy, or it is as before and the copy may be left |
| RestorePoint.Store.PutBack | tools/pdr.py:1897-1908 | one destination is as archived, the others are untouched; the copy beside it stays only when it was not put in place |
| RestorePoint.Store.PutAllBack | tools/pdr.py:1889-1912 | without an error every destination is as archived and no copy is left; an error does not stop the others and leaves at most one copy |
| RestorePoint.Store.TryRestore | tools/pdr.py:1788-1886 | nothing is touched before the archive holds every destination as it was |
| RestorePoint.Store.Discard | tools/pdr.py:1914-1916 | the listed staged files that were not used are gone |
| RestorePoint.Store.Restore | tools/pdr.py:1771-1935 | 0: all destinations are the manifest's; 2: all are as they were; otherwise the archive has them as they were; only 3 leaves copies of the archive behind; undisturbed it is 0 or 2 |
| PluginManager.Current | tools/plugin_manager.py:179-192 | the one bundle of a symbolic name, or none has it |
| PluginManager.ReachedEvolves | tools/plugin_manager.py:474-484 | wherever an exchange stops, only an overwritten bundle of another name can be missing, nothing but the artifact is new, and file names stay those of the artifacts |
| PluginManager.ReachedIsCompensable | tools/plugin_manager.py:502-511 | wherever it stops, putting the backup back overwrites nothing |
| PluginManager.CompensationRestores | tools/plugin_manager.py:502-518 | after the handler, with the journal gone, the bundles are as before, except perhaps for what had the artifact's own file name, or the install was complete, its report failed and so did the handler, which leaves the replaced plugin in backups |
| PluginManager.StagingLeaves | tools/plugin_manager.py:461-518 | while the journal says staging, the bundles are as before, or without the replaced plugin, which is then among the backups, or without what had the artifact's name |
| PluginManager.RecoveredPlugin | tools/plugin_manager.py:679-701 | after a successful recover of an install that had not committed, the replaced plugin is in place if and only if the journal knew of its backup or it had not been taken away; else it is among the backups |
| PluginManager.Endangered | tools/plugin_manager.py:465-483 | only bundles of another symbolic name can be overwritten |
| PluginManager.InstallOverwrites | tools/plugin_manager.py:465-483 | with the canonical name taken by a bundle of another symbolic name and no copy of it, a complete install leaves that bundle nowhere |
| PluginManager.ReachedMoves | tools/plugin_manager.py:471-518 | wherever an install or its handler stops, each file is where it was, or is the artifact under its name, or is among the backups of this transaction with the content of that name |
| PluginManager.PluginHost.AcquireLock | tools/plugin_manager.py:425-430 | succeeds only if the lock was free, and never takes a lock that exists; a failure may leave the new file behind |
| PluginManager.PluginHost.CopyToStage | tools/plugin_manager.py:471-473 | a staged copy that passes its digest check is the artifact |
| PluginManager.PluginHost.Prepare | tools/plugin_manager.py:447-473 | until the copy is staged neither directory changes, and the journal names what will be replaced |
| PluginManager.PluginHost.SetAside | tools/plugin_manager.py:474-482 | the current plugin is in the backup directory and the journal says so, or the move or the journal is missing |
| PluginManager.PluginHost.Publish | tools/plugin_manager.py:483-498 | the staged artifact takes its name, and the journal goes last, before the report |
| PluginManager.PluginHost.Exchange | tools/plugin_manager.py:474-498 | ends in one of three states, and a journal left behind tells the replaced plugin's place and digest |
| PluginManager.PluginHost.Compensate | tools/plugin_manager.py:502-519 | nothing is lost; when verified, the replaced plugin is back under its old name |
| PluginManager.PluginHost.HandleFailure | tools/plugin_manager.py:500-528 | the journal goes only when the compensation is verified or nothing was done, or when it belongs to another transaction that was not begun here |
| PluginManager.PluginHost.FailInstall | tools/plugin_manager.py:502-528 | what the handler leaves, without a journal and with one that says staging |
| PluginManager.PluginHost.Install | tools/plugin_manager.py:433-535 | 0: exactly the new bundle in place and the old one in backups; 1 without a journal: `NotInstalled`, that is bundles as before except the artifact's own file name, or an exchange whose report and handler failed; any end keeps every artifact that is not overwritten and adds none but this; a journal left is faithful, and `StagingLeft` says what one in staging leaves |
| PluginManager.PluginHost.Settle | tools/plugin_manager.py:679-707 | by journal state: nothing, or the previous plugin under its old name with the recorded digest, or the committed one verified |
| PluginManager.PluginHost.Recover | tools/plugin_manager.py:642-719 | success restores what the journal says and removes it; it needs the lock to be free; it loses nothing and moves only the files that the journal names, however it ends |
| PluginManager.InstallThenRecover | tools/plugin_manager.py:433-719 | an install ended anywhere, the lock removed, then a recover that succeeds: the committed plugin, or the replaced one back exactly when `RecoveredPlugin` says so |
| PluginManager.SwappingEvolves | tools/plugin_manager.py:587-593 | wherever a rollback stops, only a bundle of another name in the restored plugin's place can be missing, and nothing is new |
| PluginManager.UndoRestores | tools/plugin_manager.py:609-617 | the handler puts the current plugin back under a name that is free, and the bundles are as before except for what had the restored plugin's name |
| PluginManager.UndoMoves | tools/plugin_manager.py:587-617 | wherever a rollback or its handler stops, each file is where it was, or is the backup under its name, or the current plugin under this transaction, or what had the backup's name in its place |
| PluginManager.UndoEvolves | tools/plugin_manager.py:610-612 | the handler's first replace loses at most the backup |
| PluginManager.HandlerLosesBackup | tools/plugin_manager.py:592-612 | after a failed second replace onto a taken name, the backup that was approved is nowhere |
| PluginManager.RollbackLosses | tools/plugin_manager.py:568-612 | what a rollback can lose is the backup or of another symbolic name |
| PluginManager.PluginHost.SwapPlugins | tools/plugin_manager.py:563-606 | the try block ends in one of three states, and only approved digests get past the checks |
| PluginManager.PluginHost.Reverse | tools/plugin_manager.py:609-617 | when verified, the current plugin is back in place |
| PluginManager.PluginHost.RollBack | tools/plugin_manager.py:538-631 | 0: the backup is in place and the current plugin in backups; 1 without a journal: `NotRolledBack`, that is bundles as before except for the restored plugin's file name, or a swap whose report and handler failed; however it ends nothing else is lost and nothing is new |
| PluginManager.HistoryEvolves | tools/plugin_manager.py:433-719 | over a history of commands, only what each could overwrite in the directories it found can be missing, and only what was installed can be new |
| PluginManager.NoLossWithClearNames | tools/plugin_manager.py:465-483 | a command overwrites nothing when every file has its artifact's name and no two artifacts of different symbolic names share one |
| PluginManager.ClearNamesLoseNothing | tools/plugin_manager.py:433-719 | if that holds at the start and for all that is installed, no history loses anything |
| PluginManager.Operate | tools/plugin_manager.py:433-719 | any sequence of installs, rollbacks, recoveries and lock removals, ended anywhere, is a history that starts with what was found and in which each command moves only the files it names: what is missing in the end is in the losses of the states that the commands found, and nothing is missing when the names are clear |
| Dependencies.Split | tools/plugin_manager.py:80-94 | the loop computes the trimmed pieces between top-level commas |
| Dependencies.SplitUndoesJoin | tools/plugin_manager.py:80-94 | splitting undoes joining with commas, so bracketed version ranges are never cut |
| Dependencies.ItemsComeBack | tools/plugin_manager.py:80-94 | a list of trimmed, non-empty, balanced items comes back as it is |
| Dependencies.JoinUndoesPieces | tools/plugin_manager.py:84-91 | the cuts lose only their commas, and no piece has a comma that would be cut |
| Pipeline.PassedNeverStarts | tools/release_pipeline.py:199-204 | over a whole history, a passed stage is never started again and never passes twice |
| Pipeline.EarlierStagesCameFirst | tools/release_pipeline.py:199-239 | before a command starts, every earlier stage was started and passed |
| Pipeline.ExistingAt | tools/release_pipeline.py:196-201 | looking a stage up by id finds the record at its place in the plan |
| Pipeline.IndexOfRecord | tools/release_pipeline.py:218-219 | replacing the first equal record replaces the right one |
| Pipeline.Runner.FileEvidence | tools/release_pipeline.py:160-167 | succeeds only when all files are there, and returns their digests |
| Pipeline.Runner.VerifyCompletedOutputs | tools/release_pipeline.py:170-175 | passes only when every recorded output is unchanged |
| Pipeline.Runner.Save | tools/release_pipeline.py:222-239 | the state file changes as a whole, and a stage counts as passed when it is written |
| Pipeline.Runner.Run | tools/release_pipeline.py:224-225 | a command is started only when all earlier stages have passed and its own has not |
| Pipeline.Runner.Note | tools/release_pipeline.py:215-222 | the record of the stage replaces the old one or is appended; the rest stays |
| Pipeline.Runner.Begin | tools/release_pipeline.py:205-225 | a command runs only with all required inputs, after its record was written |
| Pipeline.Runner.Conclude | tools/release_pipeline.py:223-246 | a stage passes only with exit code 0 and all required outputs, whose evidence it records |
| Pipeline.Runner.RunStage | tools/release_pipeline.py:205-246 | both, with earlier records untouched at every crash point |
| Pipeline.Runner.Open | tools/release_pipeline.py:184-198 | a resume needs the same plan and source, a run needs no state |
| Pipeline.Runner.Visit | tools/release_pipeline.py:199-246 | a passed stage is verified and not run, any other is run |
| Pipeline.Runner.RunStages | tools/release_pipeline.py:196-246 | the first command of an attempt starts only after the outputs of all stages before it were verified unchanged |
| Pipeline.Runner.Execute | tools/release_pipeline.py:178-251 | records stay a passed prefix of one plan, passed records never change, 0 means all passed, refusals change nothing; when every command exits with 0 and all files that are needed are there, it ends with 0 exactly on a valid plan that fits the saved state |
| Pipeline.Attempts | tools/release_pipeline.py:178-251 | the same over any number of attempts ended anywhere, with the build tree changed in between; completion means every stage has passed |
| ServiceEndpoint.OthersBetween | platform/DDS/src/ServiceEndpoint.cpp:291-301 | between two handler runs for one id at least 256 other ids were handled |
| ServiceEndpoint.CachedAppend | platform/DDS/src/ServiceEndpoint.cpp:291-301 | inserting with eviction keeps the cache exactly the last 256 runs |
| ServiceEndpoint.WindowIsDistinct | platform/DDS/src/ServiceEndpoint.cpp:294-300 | the remembered ids are distinct and at most 256 |
| ServiceEndpoint.RepeatIsAnswered | platform/DDS/src/ServiceEndpoint.cpp:155-160 | an id in the cache is answered with the response of that run, unchanged |
| ServiceEndpoint.HandleIsAnswered | platform/DDS/src/ServiceEndpoint.cpp:221-301 | a handled request is answered with its own id and operation, also when the handler throws |
| ServiceEndpoint.RepeatedOperation | platform/DDS/src/ServiceEndpoint.cpp:204-219 | a repeat carries its own operation if and only if the first request had the same |
| ServiceEndpoint.Endpoint.Enqueue | platform/DDS/src/ServiceEndpoint.cpp:103-117 | accepted at the end of the queue unless stopping |
| ServiceEndpoint.Endpoint.PublishEvent | platform/DDS/src/ServiceEndpoint.cpp:353-371 | queued unless stopping or not started; an error without a topic |
| ServiceEndpoint.Endpoint.Trace | platform/DDS/src/ServiceEndpoint.cpp:56-71 | trace events are queued unless stopping |
| ServiceEndpoint.Endpoint.Take | platform/DDS/src/ServiceEndpoint.cpp:131-176 | requests first, then events, then trace events; ends only when stopping with empty queues |
| ServiceEndpoint.Endpoint.Remember | platform/DDS/src/ServiceEndpoint.cpp:294-300 | the response enters the cache and only the oldest leaves when it is full |
| ServiceEndpoint.Endpoint.FinishRepeat | platform/DDS/src/ServiceEndpoint.cpp:204-219 | the cached response is published for the repeat |
| ServiceEndpoint.Endpoint.FinishHandle | platform/DDS/src/ServiceEndpoint.cpp:221-326 | the handler's response is remembered under its id and published once |
| ServiceEndpoint.Endpoint.Act | platform/DDS/src/ServiceEndpoint.cpp:56-371 | one step of a caller or of the worker: requests and events are accepted only before the stop, what was answered and sent stays |
| ServiceEndpoint.Endpoint.Interleave | platform/DDS/src/ServiceEndpoint.cpp:56-371 | for every order of the steps, what is answered so far is the first part of the requests enqueued before the stop, in order, and likewise the events |
| ServiceEndpoint.Endpoint.Iterate | platform/DDS/src/ServiceEndpoint.cpp:119-327 | each iteration of a stopping worker leaves less pending |
| ServiceEndpoint.Endpoint.Drain | platform/DDS/src/ServiceEndpoint.cpp:119-145 | after a stop, with other threads still calling, the worker ends and every accepted request was answered exactly once and in order, every event sent |
| ServiceEndpoint.Endpoint.Stop | platform/DDS/src/ServiceEndpoint.cpp:330-351 | nothing that was accepted is dropped by clearing the queues |
| ServiceEndpoint.Serve | platform/DDS/src/ServiceEndpoint.cpp:56-371 | over the life of an endpoint, for every order of the steps: the requests enqueued before the stop are answered, each once and in order, the events published before it are sent, and nothing else is |
| ServiceEndpoint.ServeAgain | platform/DDS/src/ServiceEndpoint.cpp:56-371 | the same of every further life of a stopped endpoint |
| SubprocessConfig.SlotTextIsSlotLine | tools/pdr.py:287-289 | the pattern takes a printed entry apart into its number, key and value |
| SubprocessConfig.ParsePrint | tools/pdr.py:280-316 | parsing a printed file gives the same slots and the preserved lines up to trailing blanks |
| SubprocessConfig.ContentIsGood | tools/pdr.py:286-292 | whatever is in a file, what the parser finds can be printed and found again |
| SubprocessConfig.RewriteNormalises | tools/pdr.py:280-316 | for any file, writing what was parsed keeps the slots, and doing it again changes nothing |
| SubprocessConfig.NumberedInOrder | tools/pdr.py:292 | slots numbered consecutively come back in their order |
| SubprocessConfig.KeysOf | tools/pdr.py:303-308 | the listed keys are exactly the slot's |
| SubprocessConfig.KeysInOrder | tools/pdr.py:303-308 | each key is listed once, the preferred ones first in their order, the others after them in ascending order; with `KeysOf` this determines the list |
| SubprocessConfig.Parse | tools/pdr.py:280-292 | the parser's loop computes the specified content |
| SubprocessConfig.Write | tools/pdr.py:295-316 | the printer's loops compute the specified text |
| SubprocessConfig.RemoveUndoesApply | tools/pdr.py:363-433 | removing a newly applied instance gives back the original slots |
| SubprocessConfig.Configuration.Apply | tools/pdr.py:344-376 | the entry is replaced in place or appended, foreign entries are refused, preserved lines stay, also when only the report fails; undisturbed it succeeds exactly when the slot is complete and the name free or managed |
| SubprocessConfig.Configuration.Remove | tools/pdr.py:413-434 | the first entry of the name goes and nothing else, also when only the report fails; undisturbed it succeeds exactly when the name is free or managed |
| SubprocessConfig.ApplyAndRemove | tools/pdr.py:363-434 | apply and remove through the file give back the slots and the preserved lines |
| Text.SplitJoin | tools/pdr.py:286-313 | lines that were joined are the lines that are read |
| Text.TrimPadded | tools/pdr.py:289 | trimming drops exactly the blanks around a trimmed string |
| Text.BlankIsTrimmedAway | tools/pdr.py:298 | the printer's test drops exactly the lines that are all blanks |
| Text.ToNatToString | tools/pdr.py:289-310 | a printed index reads as itself |
| Text.Sorted | tools/pdr.py:292-306 | the elements of the set, each once, in ascending order |
| RestartBudget.SpreadBoundsEveryWindow | SubSystem/launcher/src/RuntimeLauncher.cpp:263-276 | relaunches whose m-th successors are a window apart are at most m in any window |
| RestartBudget.ExhaustionIsLast | SubSystem/launcher/src/RuntimeLauncher.cpp:266-275 | nothing is launched after the budget is exhausted |
| RestartBudget.Prune | SubSystem/launcher/src/RuntimeLauncher.cpp:263-265 | the deque is the accepted relaunches still inside the window, and its size is their number |
| RestartBudget.Launcher.Account | SubSystem/launcher/src/RuntimeLauncher.cpp:261-276 | a relaunch is accepted, or the budget exhausted exactly when m is 0 or the window holds m, keeping the invariant |
| RestartBudget.Launcher.Round | SubSystem/launcher/src/RuntimeLauncher.cpp:234-276 | one launch and its accounting; a stop while the command runs accepts nothing |
| RestartBudget.Launcher.Launch | SubSystem/launcher/src/RuntimeLauncher.cpp:226-284 | for every sequence of rounds the log is the one that counting the relaunches inside the window gives; relaunches i and i+m are a window apart |
| BundleMonitor.Run | platform/BundleManagement/src/BundleManager.cpp:156-161 | the longest run of equal scans at the end |
| BundleMonitor.DueByRun | platform/BundleManagement/src/BundleManager.cpp:150-164 | a reload is due exactly when that run is long enough and differs from what is applied |
| BundleMonitor.TracksOn | platform/BundleManagement/src/BundleManager.cpp:150-171 | the counter and the pending snapshot stay what the history says |
| BundleMonitor.ReloadsAreApart | platform/BundleManagement/src/BundleManager.cpp:162-171 | the next attempt after a reload is at least the stable count of scans later |
| BundleMonitor.BundleManager.Compare | platform/BundleManagement/src/BundleManager.cpp:149-182 | the loop body: counter, pending and applied after one scan |
| BundleMonitor.BundleManager.Observe | platform/BundleManagement/src/BundleManager.cpp:147-183 | a reload is attempted exactly when the last scans are equal and differ from applied; applied changes only when it returns |
| BundleMonitor.BundleManager.Monitor | platform/BundleManagement/src/BundleManager.cpp:139-184 | the same over every sequence of scans and reloads that may throw: each scan that completes is one turn, in order |
| Envelope.EnvelopeComesBack | platform/DDS/src/EnvelopeTopicDataType.cpp:41-71 | reading back the written fields gives the same envelope, in both versions and byte orders |
| Envelope.VersionsAgree | platform/DDS/src/EnvelopeTopicDataType.cpp:29-45 | the two representations write the same body, so one size serves both |
| Envelope.EncodedLength | platform/DDS/src/EnvelopeTopicDataType.cpp:41-47 | length words, terminators and padding add 5 to 8 bytes to each string |
| Envelope.SizeBoundsLength | platform/DDS/src/EnvelopeTopicDataType.cpp:78-90 | the computed size bounds the encoded length if and only if the total fits in 32 bits |
| Envelope.NumberComesBack | platform/DDS/src/EnvelopeTopicDataType.cpp:42-69 | an aligned number reads back as itself, wherever it stands |
| Envelope.StringComesBack | platform/DDS/src/EnvelopeTopicDataType.cpp:42-69 | a string with its length word and terminator reads back as itself |
| Envelope.Serialize | platform/DDS/src/EnvelopeTopicDataType.cpp:22-53 | writes the encoding, or reports, exactly when the buffer is too small or a string has a zero byte |
| Envelope.Deserialize | platform/DDS/src/EnvelopeTopicDataType.cpp:56-76 | reads field by field into the caller's object, reporting any read past the end; a failed read leaves the fields before it read and the others as they were |
| Compatibility.OnlyAddedConstraintsReject | tools/check_compatibility.py:175-190 | after an unreported change a value stays accepted exactly when it meets the added constraints |
| Compatibility.NothingAddedKeepsAccepting | tools/check_compatibility.py:175-190 | an unreported change that adds no constraint key accepts every old value |
| Compatibility.ChoicesStayAccepted | tools/check_compatibility.py:175-190 | with choices in the old definition, every old value stays accepted if and only if the accepted choices meet what was added |
| Compatibility.ExhaustsExactly | tools/check_compatibility.py:175-190 | choices hold all accepted numbers exactly when both bounds are there and the numbers between them are few enough to be listed |
| Compatibility.NumbersStayAccepted | tools/check_compatibility.py:175-190 | for numbers, every old value stays accepted if and only if the old choices meet what was added, or, without any, no bound was added where there was none and added choices hold all numbers between the bounds |
| Compatibility.StringsStayAccepted | tools/check_compatibility.py:175-190 | for strings, if and only if the old choices meet what was added, or, without any, no maximum length, no minimum length that excludes a string, and no choices short of all strings of the old lengths were added |
| Compatibility.FlagsStayAccepted | tools/check_compatibility.py:175-190 | for booleans, if and only if the old choices meet what was added, or, without any, added choices hold both values |
| Compatibility.UntypedIsEachType | tools/check_compatibility.py:175-190 | without a type, every old value stays accepted if and only if that holds with each type |
| Compatibility.StaysAccepted | tools/check_compatibility.py:175-190 | for any definition, an unreported change keeps every value accepted if and only if the old choices meet what was added, or, without any, nothing added constrains a value of its type |
| Compatibility.ConstraintsCompose | tools/check_compatibility.py:175-190 | unreported constraint changes compose |
| Compatibility.NoBreakComposes | tools/check_compatibility.py:193-246 | so do changes of surfaces that break nothing |
| Compatibility.ComparePlugin | tools/check_compatibility.py:199-210 | exactly the breaking changes of the plugin contract |
| Compatibility.CompareHeaders | tools/check_compatibility.py:215-221 | exactly the removed headers and types |
| Compatibility.CompareDefinitions | tools/check_compatibility.py:225-234 | exactly the removed and changed definitions |
| Compatibility.Changes | tools/check_compatibility.py:199-246 | exactly the breaking changes |
| Compatibility.Compare | tools/check_compatibility.py:193-253 | no errors if and only if nothing breaks or the major version is new; otherwise exactly the breaking changes |
| Compatibility.CompatibleWithItself | tools/check_compatibility.py:193-253 | a surface is compatible with itself |
| Compatibility.CompatibilityComposes | tools/check_compatibility.py:248-253 | "no error" is transitive when the last major number is higher than the first or neither step raises it |
| Compatibility.RemovalIsHidden | tools/check_compatibility.py:248-253 | along any other major numbers a removed target goes unreported, in the first step or in the second |
| Compatibility.ComposesExactly | tools/check_compatibility.py:248-253 | "no error" is transitive for all surfaces of three versions if and only if the last major number is higher than the first or neither step raises it |

## Left out

- Signature, trust policy, provenance, manifest and preflight checks: one `accepted` or `approved` flag.
- The retry loop, time-outs and evidence of `rename_path`: a rename is one step that happens or raises.
- Failures inside `remove_tree` and `shutil.move`: each is one step.
- UpgradeManager.Host.StageFiles: a manifest that ships a path under `logs`, `data` or `disabled-bundles`; the source accepts it, and then refuses to transfer that directory, in `apply` and in every `recover`.
- A health sentinel inside an excluded directory such as `logs`: the model takes the answer of that probe as given.
- Backup order by modification time: the caller gives which backups are pruned or rolled back to.
- Excluded directories other than the mutable ones (`codeCache`), plain files named like them, and target paths with such a parent.
- Argument and path checks of `apply`, `rollback` and `recover` that raise before any effect.
- UpgradeManager.Host.Recover: a journal of another schema version or target, and paths that leave the governed location, are refused by the source and not modelled.
- Partly written lock files, processes that are not part of the system at the start, and reuse of process ids; the lock model assumes that a waiting process does not have the pid of the stale owner.
- Destinations of a restore that others change meanwhile; the restore's lock-step with a running management service.
- Recovery of an interrupted plugin rollback: `recover_plugin` accepts install journals only, and refuses in the model too.
- The pids and time stamps in journals, locks and audit files, and the contents of reports.
- Pipeline.Runner.Execute: the state lock is taken as given (see `StateLock`), logs and durations are left out, and a state file edited by hand is not considered.
- ServiceEndpoint: time stamps, tracing fields and metrics of a response, and the DDS runtime itself.
- Unicode decimal digits in slot numbers: the model reads ASCII digits; file decoding and newline translation happen before the model.
- SubprocessConfig.Configuration.Apply: reading the scaffold snippet and the report is left out; the slot is an argument that the parser's line pattern could have produced.
- Changes of the configuration by two processes at once: the file lock is the protocol of `StateLock`.
- RestartBudget.Launcher.Launch: the watchdog, resource boundaries and the delay between relaunches; the number of rounds is bounded by an argument so that every finite run is covered.
- BundleMonitor.BundleManager.Monitor: reloads requested by others than the monitor, and an exception of the very first scan; the number of turns is an argument.
- Envelope.Serialize: bytes skipped by alignment are zero here; of the CDR library's own checks, running out of buffer and zero bytes in a string are modelled, and others are not part of this model.
- Compatibility.Compare: the order and the texts of the messages, and documents that lack a key.
- Envelope.Deserialize: of the encapsulation kinds that the CDR library can read, only the two versions in both byte orders that this serializer writes; other kinds are reported as unreadable here.
- How surfaces are read from headers and YAML, `version_matches`, code generation, the web UI, Geo formulas and the OSP stubs.
