# Verified model of the lifecycle agent

A Dafny model of the parts of the lifecycle agent in which a mistake is expensive: the stage machine of
the ImageBasedUpgrade (IBU) resource, the pivots between two stateroots under crashes, its exclusion with
the IPConfig controller, the merge of extra manifests, the cleanup of stateroots, the ordering of manifests
and of backups and restores, and the assembly of USB media. `dafny verify dfyconfig.toml` checks all of it.

## How it is organised

| file | what it models |
|---|---|
| `Prelude.dfy` | Option |
| `Conditions.dfy` | the ordered condition list, and its view as a map from condition type to status and reason |
| `Lifecycle.dfy` | stage predicates, valid next stages, transitions, the gate, handler outcomes, on condition maps |
| `Pivot.dfy` | a node with two stateroots; every procedure as the sequence of its durable writes |
| `PivotRuns.dfy` | all runs: one stage in progress, no dead end, the crash-safe pivot |
| `SettledRuns.dfy` | all runs after an abort or finalize has started |
| `Outcomes.dfy` | what each operation leaves on the conditions and on the node, for every outcome of its steps |
| `CompletedRuns.dfy` | runs in which all goes well, to their ends |
| `FailedReboot.dfy` | concrete runs, to the states the run properties speak of |
| `Controller.dfy` | the controller as classes with fields: condition list updated in place, host written write by write |
| `Exclusion.dfy`, `IPController.dfy` | the IPConfig stage machine, both gates, runs of both controllers |
| `IPOutcomes.dfy` | what the IPConfig gates and handlers leave, for every outcome of their steps |
| `LostExclusion.dfy` | concrete runs of both controllers in which the exclusion is lost |
| `Merge.dfy` | JSON values and the musthave merge |
| `Cleanup.dfy` | removal of unbooted stateroots by shifting positions |
| `Decimal.dfy`, `Waves.dfy`, `ExportLoad.dfy` | decimal numbers, grouping by apply wave, numbered export and load |
| `BackupRestore.dfy` | backup and restore waves with interference, PV reclaim policies |
| `UpgradeData.dfy` | the pre-pivot run with its backups, the post-pivot run with its restores |
| `MediaLayout.dfy`, `MediaAssembly.dfy`, `BlobClosure.dfy` | partition arithmetic, the image and loop protocol, the content-addressed copy |

**Crashes.** A procedure of the controller is the sequence of durable writes it makes: to the API server of the
booted stateroot, to a saved copy of the resource on either stateroot, to the default deployment. Dying after k
writes is executing the first k of them, so a property of every prefix is a property of every crash. Status
updates that change only messages repeat a write and are not listed again. A reboot that succeeds is a crash
after the last write before it.

**Runs.** A run interleaves starts of the controller, reconciles, automatic rollbacks from outside the
controller, kills, reboots and edits of the spec, each procedure dying anywhere. An automatic rollback may happen
at any moment: the init monitor does not look at the resource when its timeout fires
(lca-cli/initmonitor/initmonitor.go:91), and is disabled only when the upgrade completes.
`PivotRuns.Anything` allows all of it, with any verdict of the gate and any edit; one stage in progress and the
crash-safe pivot are stated over these runs. `PivotRuns.Tame` adds what the absence of dead ends and the results of
`SettledRuns.dfy` need: IPConfig is idle or blocked (`GateVerdict.Released`), so that the gate lets every reconcile
through; the seed image is edited only while Idle is true and not to the booted stateroot; Prep is not asked for
on the stateroot already booted. The API allows more: it admits a new seed image whenever the new stage is Idle
(api/imagebasedupgrade/v1/types.go:41), which after an upgrade turns isAfterPivot from true to false; tame runs leave
such an edit out. The crash-safe pivot allows it: the time it speaks of ends only with a new seed image on the new
stateroot before the upgrade there is over, which the API rejects unless Idle has been asked for before or IPConfig
has blocked the upgrade (`ReseedRejected`). `SettledRuns.Follows` adds to tame that the node boots what it is set to boot, and that an
automatic rollback happens only on the stateroot that is upgraded to and before that upgrade is finalized or aborted
(disabling the monitor at completion can fail, which is only logged: controllers/upgrade_handlers.go:470-473). After a
pivot the results are also given without it, for any reboot and any automatic rollback.

**Assumed throughout.** A file is written whole or not at all; API updates succeed (where they may fail, the
failure is a parameter); the user does not delete the resource; `ostree admin set-default` is available; the
booted stateroot changes only by reboot; file and API writes other than those listed do not touch the modelled
state. Host commands, health checks, jobs and the network are nondeterministic outcomes: of `Env` and `IPEnv`
in the state machines, of calls that may fail in the methods, which count their failures, so that success is
characterised by there being none. Message text, generations and times are not kept.

**Functions and the code they stand for.** `Lifecycle.ValidNextStages`, `TransitionRequested`, `FinalizeOrAbort`,
`Accepted`/`Rejected` and `Gate` are getValidNextStageList, isTransitionRequested, isFinalizeOrAbort,
validateStageTransition and gateIBUByIPConfig of controllers/ibu_controller.go; `Lifecycle.StageResult` is every
outcome of the stage handlers. `Pivot.InitWrites`, `PrePivot`, `PostPivot`, `StartRollback`, `AutoRollbackWrites`
are InitIBU, PrePivot, PostPivot, startRollback and InitiateRollback. `Exclusion.IPValidNextStages`,
`IPTransitionRequested`, `HandlerStatuses` and `GateOf` are validNextStages, isIPTransitionRequested, the three
IPConfig handlers and both gates. `Merge.MergeSpec`, `MergeLists` and `EqualObj` are mergeSpecsHelper, mergeArrays
and equalObjWithSort; `Merge.MergeByName` and `Json.Contains` are independent definitions.

## What the code does not do

- *Musthave soundness fails.* In mergeArrays the type assertion at internal/extramanifest/merge.go:149 shadows
  `val1`, so a template element that is not a map is replaced by a nil map when it is compared with a map; a nil
  map equals `{}`, and an existing `{}` in a list then displaces the template element. `EmptyMapDisplacesTemplate`
  gives the input, `MustHaveSound` the exact condition, `MustHaveWithoutEmptyMaps` the check on the existing object.
- *A rollback is possible after an abort has started* when the abort is accepted on the old stateroot while the new
  one is still the one to boot and offers a rollback, which happens when the reboot after set-default failed
  (controllers/upgrade_handlers.go:242-252): the node can go down before the cleanup, boot the new stateroot, restore
  the exported copy and accept a Rollback. `AbortIsUnsafe` gives the run, and `AbortIsUnsafeWithoutCopies` one in which
  the copies have been restored before. `SafeExactlyWhenNotExposed` shows, for every state from the pivot on and on
  either stateroot, that this is the only way: accepting Idle is safe if and only if the other stateroot is not the
  default or what speaks for it does not accept a rollback; and whatever is booted afterwards, if and only if it does
  not accept one. `FinalizeIsSafe` is a safe state with the other stateroot as default.
- *A stale copy survives an abort.* When set-default fails after exportForUncontrolledRollback
  (controllers/upgrade_handlers.go:234-241), cleanup does not delete the copy on the booted stateroot. After an accepted
  Idle, a restart brings a failed upgrade back if and only if there is such a copy (`StaleCopyReturns`);
  `FailedReboot.StaleCopy` is a reached state where it does.
- *A payload above MaxInt64/110 bytes* overflows in sizeIBIImagesPartition and is sized too small
  (`ImagesSizeHolds`, an if-and-only-if).
- *Exclusion needs a condition of IPConfig that stays.* Clearing marks of rejected transitions, the IPConfig handler
  can store an empty condition list, which the gate of IBU takes for "not initialised". This happens to a resource that
  has never been initialised (`UninitialisedLoses`), and to an initialised one: when both are blocked at Idle and Prep,
  passing the gate removes the Idle condition of IPConfig, and only marks are left (`InitialisedLoses`;
  `BothBlockedReached` is a run to there from two idle resources). `ExclusionExactly` gives the condition: a controller
  at work keeps the exclusion in every run if and only if it is IBU, or one of the conditions of IPConfig is anchored,
  that is, neither Config nor Rollback in progress, or one of these that is no mark and is True or Blocked.
  `PassingOwns` shows when passing the gate gives that.

## Model

| member | source | states |
|---|---|---|
| Conditions.UpdatedIsMapUpdate | controllers/utils/conditions.go:110-128 | setting a condition keeps condition types distinct and changes exactly one entry of the map, whichever place in the list it takes |
| Conditions.RemovedIsMapRemoval | controllers/utils/conditions.go:117 | removing a condition keeps types distinct and removes exactly that entry |
| Conditions.MostRecentLast | controllers/utils/conditions.go:110-118 | a condition that is new, is Idle or changes status is listed last, after the others in their order |
| Conditions.RemovedCuts | controllers/utils/conditions.go:117 | removing a condition leaves the others in their order |
| Conditions.UnchangedKeepsPlace | controllers/utils/conditions.go:110-128 | one other than Idle whose status stays is overwritten where it is listed |
| Controller.ConditionList.SetStatusCondition | controllers/utils/conditions.go:110-128 | the in-place method produces the list `Updated` describes, and one changed entry of the view |
| Controller.ConditionList.RemoveStatusCondition | controllers/utils/conditions.go:117 | the in-place removal produces the list without the type |
| Controller.Without | controllers/utils/conditions.go:117 | the filtering loop keeps the others in order |
| Controller.ConditionList.ClearMarks | controllers/utils/conditions.go:131-158 | looping over the old list while changing it clears every invalid-transition mark and nothing else |
| Controller.ConditionList.ClearInvalidTransitions | controllers/utils/conditions.go:131-144 | Prep, Upgrade and Rollback lose their marks, a marked Idle goes back to in progress |
| Controller.ConditionList.ResetStatusConditions | controllers/utils/conditions.go:161-177 | whatever the list held, only Idle=True remains |
| Controller.ImageBasedUpgrade.SetFailed | controllers/utils/conditions.go:362-375 | both conditions of the stage become False/Failed, the others stay |
| Controller.ImageBasedUpgrade.SetStarted | controllers/utils/conditions.go:378-385 | the in-progress condition becomes True, the others stay |
| Controller.ImageBasedUpgrade.SetCompleted | controllers/utils/conditions.go:388-401 | in-progress False, completed True, the others stay |
| Controller.ImageBasedUpgrade.ValidateStageTransition | controllers/ibu_controller.go:414-473 | accepts exactly the valid next stages, and leaves the conditions that `Outcomes.AcceptanceStarts`, `IdleAcceptance` and `RejectionMarks` describe |
| Lifecycle.NoDeadEnd | controllers/ibu_controller.go:291-336 | a good state has a stage in progress, or a next stage, or a failed rollback |
| Lifecycle.ClearInvalidKeeps | controllers/utils/conditions.go:131-144 | clearing marks keeps a good state good and the stage in progress |
| Lifecycle.AcceptedIsInProgress | controllers/ibu_controller.go:414-445 | an accepted transition makes the requested stage the one in progress, or initialises to Idle=True, and the state stays good |
| Lifecycle.FinalizeOrAbortChoice | controllers/ibu_controller.go:392-409 | an accepted Idle finalizes exactly when Upgrade or Rollback completed, aborts exactly otherwise, and aborts only before the pivot |
| Lifecycle.TransitionGood | controllers/ibu_controller.go:338-344 | requested, accepted or rejected, a transition keeps a good state good; the gate has nothing to unblock in it |
| Lifecycle.ResultGood | controllers/ibu_controller.go:346-390 | whatever the handler of the stage in progress ends with, the state stays good |
| Lifecycle.GateConsistent | controllers/ibu_controller.go:247-289 | whatever the gate says: the conditions stay consistent (one stage in progress, Idle only when nothing is started), a failed upgrade stays failed, one that is over stays over, and nothing becomes idle or aborting |
| Lifecycle.TransitionConsistent | controllers/ibu_controller.go:414-473 | any transition keeps the conditions consistent, from any consistent state with any stage asked for |
| Lifecycle.ResultConsistent | controllers/ibu_controller.go:346-390 | any handler outcome keeps the conditions consistent |
| Lifecycle.UpgradeFailedExport | controllers/upgrade_handlers.go:334-341 | a copy marked Upgrade-failed is a state the stage machine reaches, failed and not finished |
| Lifecycle.RollbackExport | controllers/rollback_handlers.go:97-103 | a rollback in progress handed back to the old stateroot carries a failed upgrade |
| Lifecycle.RecoveredStep | controllers/ibu_controller.go:291-318 | a failed upgrade stays failed and is not started again as long as Idle is not accepted, in any consistent state, on either side of the pivot |
| Lifecycle.PivotedStep | controllers/ibu_controller.go:291-318 | as long as Idle is not accepted, a resource that is neither idle, aborting nor finalizing stays so, and an upgrade that is over stays over, in any consistent state |
| Pivot.InitPrefix | utils/utils.go:347-374 | the node at each crash point of the restore in InitIBU |
| Pivot.InitKeeps | utils/utils.go:320-376 | through every crash point a claim about a stateroot keeps holding of its saved copy or its resource, and a finished start makes it hold of the resource |
| Pivot.WritesKeep | controllers/upgrade_handlers.go:227-242 | writes whose resources satisfy a claim keep it, wherever they stop |
| Pivot.SavedCopies | controllers/upgrade_handlers.go:318-341 | of any consistent resource, the copies saved before a pivot are one neither finalized nor aborted for the new stateroot and a failed upgrade for the old; before a rollback, a failed upgrade |
| Pivot.HandleWrites | controllers/ibu_controller.go:346-370 | no handler writes a resource that breaks the claim, or removes the booted stateroot |
| Pivot.HandleResult | controllers/ibu_controller.go:346-390 | every handler ends with one of the stage results |
| Pivot.ReconcileSteady | controllers/ibu_controller.go:147-233 | every status and copy a reconcile writes is consistent, whatever the gate says |
| Pivot.UngatedProceed | controllers/ibu_controller.go:167-233 | after any verdict of the gate, a reconcile that does not accept Idle keeps the claims of both stateroots from the pivot on, and removes neither |
| Pivot.SoundReconcile | controllers/ibu_controller.go:147-233 | the transition and the result of a reconcile of a reachable state are reachable states |
| Controller.Host.InitIBU | utils/utils.go:320-376 | the imperative start makes exactly the writes of the model, in order |
| Controller.Host.InitiateRollback | internal/reboot/reboot.go:207-246 | reads the copy on the other stateroot, writes it back marked failed, then sets the default, and nothing when there is no copy |
| Controller.Host.PrePivot | controllers/upgrade_handlers.go:124-253 | for every step it can stop at, the writes made by then and the conditions left |
| Controller.Host.Export | controllers/upgrade_handlers.go:230-252 | copy to the new stateroot, failed copy to the old one, default, in this order |
| Controller.Host.PostPivot | controllers/upgrade_handlers.go:383-484 | waiting, completed, or failed with the writes of the automatic rollback after it |
| Controller.Host.StartRollback | controllers/rollback_handlers.go:49-119 | default first, then status, then the copy for the old stateroot: the writes of `Outcomes.RollbackPrefix` |
| Controller.Host.AbortOrFinalize | controllers/ibu_controller.go:372-390 | per Idle reason the cleanup writes and the conditions left, from the stored status after a manual cleanup, as `Outcomes.IdleEnds` describes them |
| Controller.Host.HandleStage | controllers/ibu_controller.go:346-370 | the writes and conditions of the handler of the stage in progress |
| Controller.Host.GateByIPConfig | controllers/ibu_controller.go:247-289 | unblocks, blocks or passes as the gate function says, storing only what changed |
| Controller.Host.Reconcile | controllers/ibu_controller.go:147-233 | the attempted writes are those of the model's reconcile |
| Controller.RunReconcile | controllers/ibu_controller.go:147-233 | a reconcile dying after k writes is the step the run theorems are about |
| Controller.RunStart | utils/utils.go:320-376 | a start dying after k writes is the step the run theorems are about |
| Outcomes.Requested | controllers/ibu_controller.go:338-344 | asking for a stage starts a transition exactly when it is neither in progress nor ended |
| Outcomes.RejectionMarks | controllers/ibu_controller.go:447-473 | for all conditions: a transition that is asked for and not offered leaves False/InvalidTransition on the in-progress condition of its stage and changes no other; one not asked for changes nothing |
| Outcomes.AcceptanceStarts | controllers/ibu_controller.go:414-445 | accepting Prep, Upgrade or Rollback puts the stage in progress, Prep takes Idle away, Rollback gives the upgrade up as failed; marks are cleared and nothing else changes |
| Outcomes.IdleAcceptance | controllers/ibu_controller.go:392-446 | accepting Idle sets Finalizing, Aborting, only clears marks, or initialises, and when it does which |
| Outcomes.Offered | controllers/ibu_controller.go:291-336 | for each stage, when exactly a reachable resource offers it |
| Outcomes.OfferedWhenBlocked | controllers/ibu_controller.go:291-336 | blocked at Idle with nothing started, the stage asked for is offered and no other |
| Outcomes.GateLeaves | controllers/ibu_controller.go:247-289 | for each verdict: whether the reconcile goes on, the Blocked mark set or removed, and no other condition touched |
| Outcomes.PrepEnds | controllers/prep_handlers.go:545-684 | Prep ends completed, failed or in progress as its outcome says, and nothing else changes |
| Outcomes.UpgradeEnds | controllers/upgrade_handlers.go:76-111 | Upgrade ends completed exactly after the pivot when all steps succeed there, failed exactly when a step fails for good, and goes on otherwise |
| Outcomes.RollbackEnds | controllers/rollback_handlers.go:49-119 | a rollback ends completed exactly on the stateroot it leads to, and where it starts ends only in a failure |
| Outcomes.IdleEnds | controllers/idle_handlers.go:46-139 | for every outcome with Idle in progress: Idle becomes True, with no other condition left, exactly when the cleanup ran and succeeded, the cluster being healthy when finalizing and the annotation there when it had failed before; otherwise it stays False with the reason that is due, and what was removed |
| Outcomes.PrePivotReached | controllers/upgrade_handlers.go:227-252 | the node, in each of its parts, at each step a pre-pivot run can stop at |
| Outcomes.RollbackPrefix | controllers/rollback_handlers.go:73-111 | the node at each crash point of a rollback: at its reboot the old stateroot is the default, and both the stored resource and the copy for it are the rollback in progress |
| Outcomes.RollbackStops | controllers/rollback_handlers.go:73-111 | a rollback that stops earlier has made a prefix of the same writes |
| Outcomes.RollbackCopyFollowsDefault | controllers/rollback_handlers.go:73-111 | wherever a rollback stops or dies, a copy written for the old stateroot implies that it already is the default and that the resource is stored |
| Outcomes.AutoRollbackPrefix | internal/reboot/reboot.go:207-246 | the node at each crash point of an automatic rollback |
| Outcomes.PostPivotReached | controllers/upgrade_handlers.go:383-484 | the node after each outcome of a post-pivot run |
| Outcomes.Marked | controllers/utils/conditions.go:362-401 | what being marked failed, started and completed means for the two conditions of a stage, and that no other changes |
| Outcomes.StoppedStores | controllers/ibu_controller.go:273-288 | a reconcile that the gate stops stores no more than the mark |
| Outcomes.AdmittedStores | controllers/ibu_controller.go:183-233 | one that it lets through ends with the resource storing the conditions of the transition and then of the handler |
| Outcomes.AcceptedFirst | controllers/ibu_controller.go:183-205 | what it accepts is stored before the handler begins |
| CompletedRuns.PrepCompletesInOne | controllers/prep_handlers.go:545-684 | in any reachable state that accepts Prep, a reconcile in which all succeeds completes it |
| CompletedRuns.IdleCompletesInOne | controllers/idle_handlers.go:46-139 | and one that accepts Idle ends idle, with nothing else left |
| CompletedRuns.UpgradeCompletesAfterPivot | controllers/upgrade_handlers.go:124-484 | in any reachable state that accepts Upgrade: the pivot, the reboot, the start there and a post-pivot run end with UpgradeCompleted on the other stateroot, which is booted and the default |
| CompletedRuns.RollbackCompletesAtHome | controllers/rollback_handlers.go:49-119 | in any reachable state that accepts Rollback: the rollback, the reboot, the start there and a reconcile end with RollbackCompleted on the stateroot the upgrade had left, which is booted and the default |
| PivotRuns.OneStageInEveryRun | controllers/ibu_controller.go:147-233 | over every run, any edits and any gate blocking: at most one of Prep, Upgrade, Rollback in progress, and Idle true only when none has been started |
| PivotRuns.StepInv | controllers/ibu_controller.go:147-233 | every tame step keeps all resources and saved copies reachable states |
| PivotRuns.NoDeadEndInEveryRun | controllers/ibu_controller.go:291-344 | over every tame run no dead end, and an accepted transition takes effect |
| PivotRuns.PivotArms | controllers/upgrade_handlers.go:230-252 | in any run, once set-default is done, wherever the reconcile dies, both stateroots carry the copies a boot needs |
| PivotRuns.StepArmed | controllers/rollback_handlers.go:73-111 | every step that neither persists an acceptance of Idle nor changes the seed image on the new stateroot before its upgrade is over keeps that, whatever the gate says, including crashes in startRollback, InitiateRollback and InitIBU |
| PivotRuns.ArmedRun | controllers/upgrade_handlers.go:231-253 | over every run, whatever the gate says, both stateroots carry those copies from the set-default until Idle is accepted or the seed image is changed during the upgrade |
| PivotRuns.CrashSafePivot | controllers/upgrade_handlers.go:231-253 | in every run from the first boot, with any verdicts of the gate and any edits, from the set-default until Idle is accepted or the seed image is changed on the new stateroot before its upgrade is over: a controller on the old stateroot finds Upgrade failed and not in progress, and its next reconcile does not enter PrePivot, whatever the gate says |
| PivotRuns.ReseedRejected | api/imagebasedupgrade/v1/types.go:41-46 | of a reachable resource on the new stateroot whose upgrade is not over, the API rejects every change of the seed image, unless Idle has been asked for before |
| FailedReboot.RebootFails | controllers/upgrade_handlers.go:244-251 | a run from the first boot in which the reboot fails reaches a controller on the old stateroot after the pivot |
| FailedReboot.AbortIsUnsafe | controllers/upgrade_handlers.go:244-251 | asked for Idle there, it accepts an abort that a rollback can follow |
| FailedReboot.AbortIsUnsafeWithoutCopies | controllers/upgrade_handlers.go:244-251 | the same after both stateroots have restored their copies, reached by a run |
| FailedReboot.FinalizeIsSafe | controllers/ibu_controller.go:392-409 | finalizing a completed upgrade is safe although the old stateroot is the default, whatever boots afterwards |
| FailedReboot.StaleCopy | controllers/upgrade_handlers.go:334-341 | in a reached state, an abort and a restart bring the failed upgrade back from the copy on the booted stateroot |
| SettledRuns.NoRollbackAfterCleanup | controllers/ibu_controller.go:433-446 | in every run from the first boot, once Idle is accepted with the booted stateroot as default, or after a pivot in any state that is not exposed, a Rollback is accepted only after a Prep and then an Upgrade, while the node boots its default |
| SettledRuns.NoRollbackWhateverBoots | controllers/ibu_controller.go:433-446 | after a pivot, on either stateroot, when the other one offers no rollback: the same with any reboots and any automatic rollbacks |
| SettledRuns.StepSettled | controllers/idle_handlers.go:46-139 | on the stateroot set to boot, every step that follows the default, and rolls back automatically only under an upgrade, keeps the node there and its claim, until the stage that ends the claim is accepted |
| SettledRuns.StepBoth | controllers/rollback_handlers.go:49-119 | when neither stateroot has a rollback to offer, no step, with any reboot and any automatic rollback, makes one offer it before a Prep is accepted |
| SettledRuns.SafeExactlyWhenNotExposed | controllers/upgrade_handlers.go:242-252 | from the pivot on, on either stateroot: no run after accepting Idle reaches a Rollback without a new Prep and Upgrade, if and only if not (the other stateroot is the default and offers a rollback); with any reboots and automatic rollbacks, if and only if it offers none |
| SettledRuns.RollbackAfterAbort | controllers/upgrade_handlers.go:242-252 | whenever the other stateroot offers a rollback, accepting Idle and then booting it leads to that rollback; when it is the default, by following it |
| SettledRuns.StaleCopyReturns | controllers/upgrade_handlers.go:334-341 | after an accepted Idle, a restart brings back an upgrade that is failed and neither idle, aborting nor finalizing if and only if a copy is saved on the booted stateroot, and it brings back that copy |
| Exclusion.Exclusion | controllers/ibu_controller.go:247-289 | over every run, for either controller: while it is at work with conditions that are held, the blocked one's handler does not run until it is idle |
| Exclusion.ExclusionExactly | controllers/ibu_controller.go:262-268 | a controller at work keeps the exclusion in every run if and only if it is IBU or one of the conditions of IPConfig is anchored |
| Exclusion.OwnerKept | controllers/ipc_controller.go:204-245 | in one step the blocked handler does not run, and the owner stays the owner or becomes idle |
| Exclusion.WorkKept | controllers/ipc_controller.go:204-245 | a controller at work stays at work or becomes idle if and only if the step stores a condition, and what is held stays held |
| Exclusion.LostExactlyWhenClearable | controllers/utils/conditions.go:147-158 | a single step loses the exclusion if and only if IPConfig can clear the only conditions it has |
| LostExclusion.UninitialisedLoses | controllers/ibu_controller.go:262-268 | the input without initialisation: the peer, blocked at Prep, runs before IPConfig is idle |
| LostExclusion.InitialisedLoses | controllers/ipc_controller.go:228-237 | the input with both resources initialised and blocked: passing the gate, IPConfig loses its Idle condition, clears its mark, and the peer runs |
| LostExclusion.BothBlockedReached | controllers/ipc_controller.go:220-245 | a run from two idle resources leads there |
| Exclusion.PassingOwns | controllers/ipc_controller.go:204-245 | passing the gate while the other is blocked makes the controller the owner, or idle, whatever its handler does and wherever it dies, if and only if the conditions the gate leaves are held |
| Exclusion.HandlerUnmarked | controllers/ipc_config_handlers.go:87-198 | no IPConfig handler, wherever it dies, adds a Blocked mark or drops the Idle condition |
| Exclusion.HandlerSteadfast | controllers/ipc_config_handlers.go:87-198 | no IPConfig handler, wherever it dies, drops the last anchored condition, or stores an empty list other than by clearing marks |
| Exclusion.IbuUnmarked | controllers/ibu_controller.go:147-233 | no IBU reconcile, wherever it dies, adds a Blocked mark, drops the Idle condition, or empties the conditions |
| Exclusion.OwnerEdit | controllers/ibu_controller.go:262-279 | an edit of the controller at work hands over exactly when it makes it idle or moves it to a stage marked Blocked |
| Exclusion.BlockedEdit | controllers/ipc_controller.go:220-242 | what an edit of the blocked resource does at the next gate of the one at work |
| Exclusion.BothBlocked | controllers/utils/conditions.go:526-544 | if both are blocked the next reconcile of either passes |
| Exclusion.StoppedLetsPass | controllers/ibu_controller.go:281-288 | when the gate stops one, the next reconcile of the other passes |
| Exclusion.ConfigAndRollbackTogether | controllers/ipc_controller.go:264-276 | unlike IBU, Config and Rollback can be in progress together, exactly when the pivot has happened |
| IPController.IPConfiguration.HandleIdle | controllers/ipc_idle_handlers.go:46-147 | stores exactly the statuses of the model, in order |
| IPController.IPConfiguration.HandleConfig | controllers/ipc_config_handlers.go:87-198 | the statuses it stores, from the acceptance or rejection to the end of its phase, are those of the model |
| IPController.IPConfiguration.HandleRollback | controllers/ipc_rollback_handlers.go:69-168 | the statuses it stores, with the validation before the acceptance, are those of the model |
| IPController.IPConfiguration.RunPhase | controllers/ipc_config_handlers.go:200-385 | the statuses of a pre-pivot or post-pivot phase, which `IPOutcomes.PhaseEnds` ties to its outcome |
| IPController.IPConfiguration.GateByIBU | controllers/ipc_controller.go:204-245 | the gate as the model has it |
| IPController.IPConfiguration.Reconcile | controllers/ipc_controller.go:157-186 | gate and handler together are the step of the runs |
| IPOutcomes.GateLeavesEither | controllers/ipc_controller.go:204-245 | either controller passes exactly when the other has no conditions, is idle or is blocked; what its own mark becomes, and no other condition touched |
| IPOutcomes.IPRequested | controllers/ipc_controller.go:544-549 | asking for a stage starts a transition exactly when it is neither in progress nor ended, or its last rejection is marked |
| IPOutcomes.ConfigOffered | controllers/ipc_controller.go:247-305 | for all conditions: when exactly Config is offered |
| IPOutcomes.RollbackOffered | controllers/ipc_controller.go:247-305 | when exactly Rollback is offered: only after the pivot, or when blocked at Idle |
| IPOutcomes.IdleOffered | controllers/ipc_controller.go:247-305 | when exactly Idle is offered |
| IPOutcomes.PhaseEnds | controllers/ipc_config_handlers.go:189-385 | for every stage in progress: its completed condition is True after the handler if and only if the phase completes, both are False/Failed if and only if it fails, it stays in progress if and only if it waits; no other condition changes |
| IPOutcomes.IPRejectionMarks | controllers/ipc_config_handlers.go:95-106 | a transition that is asked for and not offered leaves its mark and nothing else |
| IPOutcomes.IPClearedMarks | controllers/utils/conditions.go:147-158 | clearing removes exactly the marks, and puts a marked Idle back |
| IPOutcomes.ConfigAccepted | controllers/ipc_config_handlers.go:87-198 | an accepted configuration takes Idle away, and fails at once or ends as its phase does |
| IPOutcomes.RollbackAccepted | controllers/ipc_rollback_handlers.go:69-168 | an accepted rollback ends as its phase does, or fails at once with the marks still there |
| IPOutcomes.IPIdleEnds | controllers/ipc_idle_handlers.go:46-147 | it ends idle, with nothing else left, exactly when the cluster is healthy and the cleanup succeeds; otherwise Idle says which is missing |
| IPOutcomes.IdleRejected | controllers/ipc_idle_handlers.go:46-147 | when Idle is neither retried, in progress nor accepted, it is marked if asked for, and nothing else changes |
| IPOutcomes.IPReconcileEnds | controllers/ipc_controller.go:157-186 | a reconcile that dies nowhere leaves what its gate, and then its handler, ends with |
| Json.ContainsItself | internal/extramanifest/merge.go:36-40 | containment is reflexive |
| Merge.MergeSpecsHelper | internal/extramanifest/merge.go:41-85 | filling the template map in any key order gives the merge function, of which `MergeKeepsExisting` and `MustHaveSound` say what it keeps of either side |
| Merge.CountItems | internal/extramanifest/merge.go:108-119 | per printed key the first value and the number of occurrences |
| Merge.MergeArrays | internal/extramanifest/merge.go:94-191 | the loops with matched flags and in-place writes give the pairing the function describes |
| Merge.MatchItem | internal/extramanifest/merge.go:135-180 | the inner loop pairs the first unwritten matching elements, up to the count |
| Merge.TryElement | internal/extramanifest/merge.go:140-168 | the compared value, with its shadowed variable, and the match test |
| Merge.AppendMissing | internal/extramanifest/merge.go:183-187 | appends the value as often as it is missing |
| Merge.MustHaveSound | internal/extramanifest/merge.go:19-85 | for all JSON values the template is contained in the merge if and only if no element is displaced |
| Merge.MustHaveWithoutEmptyMaps | internal/extramanifest/merge.go:94-191 | so it is whenever no list of the existing object holds an empty map |
| Merge.EqualReflexive | internal/extramanifest/merge.go:212-379 | every value equals itself |
| Merge.EqualStringMaps | internal/extramanifest/merge.go:300-379 | maps of strings are equal exactly when they have the same keys and at each the same string or the same quantity |
| Merge.StringMapsMatch | internal/extramanifest/merge.go:140-168 | in a list, a template map of strings is merged with an existing one exactly when they have the same name, or the existing one holds all its keys with the same strings or quantities |
| Merge.MergeKeepsExisting | internal/extramanifest/merge.go:41-85 | for all JSON values: merging two maps gives exactly the keys of both, those of only one with its value, shared ones again merged so; a null template over a map gives that map; under mustonlyhave a list is the template |
| Merge.ListsKeepExisting | internal/extramanifest/merge.go:94-191 | merging lists loses nothing: per printed value, as many existing elements as there are have been merged with template elements or are appended, and nothing else is appended |
| Merge.NonMapMatchesEmptyMap | internal/extramanifest/merge.go:145-154 | a non-map template element is paired with a map exactly when that map is empty |
| Merge.EmptyMapDisplacesTemplate | internal/extramanifest/merge.go:145-173 | the input on which the template is lost |
| Merge.ScalarMergeIsUnion | internal/extramanifest/merge.go:101-190 | for scalar lists each printed value occurs the maximum of its two counts, and the template is a prefix |
| Merge.NamedMergeIsByName | internal/extramanifest/merge.go:123-190 | for lists of distinctly named maps the result is the independent merge by name |
| Merge.MergeByNameKeepsNamesDistinct | internal/extramanifest/merge.go:123-190 | which duplicates no name and keeps the template's names in place |
| Cleanup.UndeployDown | controllers/idle_handlers.go:300-317 | undeploying positions last first removes exactly the stateroot's deployments |
| Cleanup.UndeployUpIsWrong | controllers/idle_handlers.go:300 | first first, the same positions remove the booted deployment |
| Cleanup.OthersKept | controllers/idle_handlers.go:313-317 | however far undeploying gets, other stateroots keep their deployments in order |
| Cleanup.UndeployInRange | controllers/idle_handlers.go:313-317 | each position is that of a deployment at the time it is undeployed |
| Cleanup.Host.CleanupStateroot | controllers/idle_handlers.go:294-327 | it succeeds exactly when no call fails and the stateroot is not the booted one, and then has removed exactly its deployments and directory; of the booted one it removes nothing; failure has undeployed a prefix of its positions |
| Cleanup.Host.CleanupUnbooted | controllers/idle_handlers.go:234-292 | it succeeds exactly when no call fails, and leaves exactly the booted stateroot's deployments in order and its directory; under any failures the booted deployment and directory survive |
| Cleanup.Host.RemoveOtherDirs | controllers/idle_handlers.go:267-285 | removes every other directory, and reports success exactly when no call fails |
| Cleanup.Host.Cleanup | controllers/idle_handlers.go:143-181 | every task is attempted whatever fails, and success means exactly that no call failed: the stateroots are clean then; failure never costs the booted one |
| Decimal.PrintParse | utils/utils.go:559-588 | Atoi of a printed number is that number up to MaxInt64, and the clamped error above |
| Decimal.AtoiExactly | utils/utils.go:559-588 | Atoi accepts exactly the ways to write a number that fits (sign, leading zeros, digits), and gives that number |
| Waves.SortAndGroupByApplyWave | internal/common/manifest_helpers.go:19-62 | a stable (wave, name) sort in place; an error exactly when an annotation does not parse; groups not empty, of one wave, waves strictly increasing, flattening to the sorted list |
| Waves.Group | internal/common/manifest_helpers.go:41-61 | the grouping loop, with the groups so far on an error |
| Waves.NameLessAt | internal/common/manifest_helpers.go:24-40 | names are ordered at the first character they differ in, a prefix first |
| Waves.WaveAsWritten | internal/common/manifest_helpers.go:48-51 | an annotation is an error exactly when it does not write a 64-bit number, and is that wave otherwise |
| Waves.UnannotatedLast | internal/common/manifest_helpers.go:44-46 | manifests without an annotation come after all with a wave below 2^31-1 |
| Waves.StableSortIsStable | internal/common/manifest_helpers.go:24-40 | the sort is a sorted permutation that keeps the order of equal keys |
| Waves.StableSortUnique | internal/common/manifest_helpers.go:24-40 | there is one such result, whatever the algorithm |
| ExportLoad.NumberOfGroup | utils/utils.go:559-570 | the trailing number of an exported directory name is its number |
| ExportLoad.NumberOfFile | utils/utils.go:577-588 | the leading number of an exported file name is its number, whatever follows |
| ExportLoad.TrailingNumber | utils/utils.go:559-570 | of any name: the number of the whole trailing run of digits, 0 when there is none or it does not fit |
| ExportLoad.LeadingNumber | utils/utils.go:577-588 | of any name: the number of the whole leading run of digits, 0 when there is none or it does not fit |
| ExportLoad.ListingUnique | utils/utils.go:508-510 | sorting the names by number has one result, in any directory order and with an unstable sort |
| ExportLoad.Export | internal/extramanifest/extramanifest.go:411-425 | writes group i to directory number i+1 and manifest j to file number j+1, and nothing else |
| ExportLoad.ExportGroup | internal/backuprestore/restore.go:198-206 | the files of one group hold its manifests under their numbers, and nothing else |
| ExportLoad.LoadFiles | utils/utils.go:519-546 | of any directory: the contents of its files in an order of ascending numbers, or nothing exactly when one does not decode; an exported group in order |
| ExportLoad.DirectorySkipped | utils/utils.go:519-546 | a directory among the files gives nothing, wherever it is listed |
| ExportLoad.LoadDirs | utils/utils.go:512-549 | one group for each directory, in their order, files skipped; fails exactly when a directory cannot be read or a file in it does not decode |
| ExportLoad.Load | utils/utils.go:495-552 | of anything: a missing base gives no groups; fails exactly when the base or a group cannot be read or a file in a group does not decode; the groups are in an order of ascending numbers; of an exported tree: the groups in order |
| ExportLoad.RoundTrip | internal/backuprestore/restore.go:190-206 | for any number of groups and files, loading what was exported gives it back in order |
| BackupRestore.BackupWaves | controllers/upgrade_handlers.go:486-538 | in every run from no own backups, an own backup exists only when all groups before one it belongs to are Completed |
| BackupRestore.CompletedStays | internal/backuprestore/backup.go:90-143 | groups completed at some point are completed from then on |
| BackupRestore.BackupCluster.CleanupStaleBackups | internal/backuprestore/backup.go:486-590 | requests the deletion of exactly the stale ones it finds (labelled with another cluster ID or with none), and succeeds only when it then finds each of them gone; completed own backups stay |
| BackupRestore.StaleOfExactly | internal/backuprestore/backup.go:510-530 | every stale one and no other is listed |
| BackupRestore.BackupCluster.StartOrTrackBackup | internal/backuprestore/backup.go:90-143 | looks for every backup of the group once, creates exactly those it does not find, lists each as it was seen, and fails exactly when a call does, while others interfere |
| BackupRestore.BackupCluster.HandleBackup | controllers/upgrade_handlers.go:486-538 | done exactly when all groups are Completed; otherwise what was seen of the next group decides: failed when one has failed, a short wait when one is in progress, a longer one else; an error only when a call failed, and with none failing and all completed it is done; it creates in turn and only after the volumes are patched, and requests no deletion of an own backup |
| BackupRestore.BackupCluster.FinishPrePivot | controllers/upgrade_handlers.go:146-253 | the upgrade reboot is requested only when all groups are Completed, and then is if no call fails |
| BackupRestore.RebootAfterBackups | controllers/upgrade_handlers.go:146-253 | in every run from no own backups: from the reboot on all groups are Completed, each backup was created in its turn, and none is created any more |
| UpgradeData.PrePivot | controllers/upgrade_handlers.go:124-253 | backups and pivot together: the writes of the pre-pivot run set the default to the new stateroot only when every backup of every group is Completed; Upgrade fails when a backup failed or a stale one stays, and goes on while it waits |
| UpgradeData.PostPivot | controllers/upgrade_handlers.go:383-484 | restores and resource together: UpgradeCompleted becomes True only when every restore on disk at the start is Completed, and then if the health checks pass; Upgrade fails when a restore has failed, and goes on while it waits |
| BackupRestore.RestoresBeforeCompletion | controllers/upgrade_handlers.go:446-482 | in every run, with the directory removed earlier or in part: no exported restore is lost, restores are created group by group, completion only when every exported restore is Completed |
| BackupRestore.RestoreHost.StartOrTrackRestore | internal/backuprestore/restore.go:45-119 | looks for every restore of the directory once, creates exactly those that are missing and whose backup is there, lists each as it was seen, and fails exactly when a call does, while others interfere |
| BackupRestore.RestoreHost.HandleRestore | controllers/upgrade_handlers.go:540-591 | removes files only when all that were there are restored and the policies are back; done only with none left; an error exactly when a call failed; otherwise what was seen of the first directory that is not completed decides |
| BackupRestore.RestoreHost.FinishPostPivot | controllers/upgrade_handlers.go:446-482 | goes on to completion only then and when the deferred health check passes, and does if no call fails |
| BackupRestore.PatchVolumes | internal/backuprestore/backup.go:272-300 | patches exactly a prefix of the volumes: all, or up to one that needs it and could not be updated |
| BackupRestore.UnpatchVolumes | internal/backuprestore/backup.go:305-334 | restores exactly a prefix of the volumes: all, or up to one that is marked and could not be updated |
| BackupRestore.PatchedIsRetained | internal/backuprestore/backup.go:286-295 | while patched no LVMS volume has policy Delete, the mark says which to restore, and the others are left alone |
| BackupRestore.PolicyRoundTrip | internal/backuprestore/backup.go:272-334 | after any attempts, restoring gives the original policy back |
| MediaLayout.AlignUpIsNextMiB | lca-cli/createusb/createusb_assemble.go:704-706 | the next whole MiB, as long as it fits 64 bits |
| MediaLayout.ImagesSizeHolds | lca-cli/createusb/createusb_assemble.go:666-672 | the partition holds the payload, 10% and 256 MiB if and only if payload*110 does not overflow; never below 8 GiB |
| MediaLayout.ImagesSizeIsLeast | lca-cli/createusb/createusb_assemble.go:666-672 | without overflow it is the smallest whole MiB that does, and at least 8 GiB |
| MediaLayout.SetIBIImagesSize | lca-cli/createusb/createusb_assemble.go:677-684 | only the first ibi-images entry changes, wherever it is in the plan, and nothing when there is none |
| MediaLayout.ContainerSize | lca-cli/createusb/createusb_assemble.go:690-703 | the 64-bit sum is what is needed in unbounded arithmetic, as long as that fits |
| MediaLayout.PlacedRegions | lca-cli/createusb/createusb_assemble.go:965-993 | the regions sfdisk makes of the script |
| MediaLayout.LayoutFits | lca-cli/createusb/createusb_assemble.go:566-571 | for every ISO, payload and mode: all after the ISO, no overlap, logicals in the extended container with a MiB each, all within the container and an accepted budget |
| MediaLayout.LayoutTight | lca-cli/createusb/createusb_assemble.go:689-706 | nothing is wasted: the partitions follow each other from the first whole MiB after the ISO, and the media ends 64 MiB after the last primary one |
| MediaAssembly.Host.Populate | lca-cli/createusb/createusb_p2.go:149-195 | it succeeds exactly when no step fails, and then the content is there; mounted after it only if the unmount failed, and then it says so |
| MediaAssembly.Host.WriteLiveISO | lca-cli/createusb/createusb_p1.go:173-220 | it succeeds exactly when there was no image and no step fails; an existing image is not touched, and a partial one is removed unless that fails too |
| MediaAssembly.Host.AppendAndPopulate | lca-cli/createusb/createusb_assemble.go:544-604 | it succeeds exactly when no step fails, with the partitions of the mode populated; an error is tagged exactly when a partition is still mounted |
| MediaAssembly.Host.AssembleMedia | lca-cli/createusb/createusb_assemble.go:414-606 | it gives a handle exactly when there was no image and no step fails; never harms a used image; a failure leaves nothing behind unless a partition is still mounted or the rollback fails too |
| MediaAssembly.Host.Build | lca-cli/createusb/createusb_assemble.go:353-400 | it succeeds exactly when there was no image and no step fails, and leaves a detached image with its partitions populated |
| MediaAssembly.MediaHandle.Close | lca-cli/createusb/createusb_assemble.go:302-313 | it succeeds exactly when what is left to do does: all gone, or what is attached is kept with its image |
| MediaAssembly.MediaHandle.CloseUntilDone | lca-cli/createusb/createusb_assemble.go:298-301 | retrying Close ends exactly when some attempt up to then has detached and the last one can remove the image |
| MediaAssembly.MediaHandle.Finalize | lca-cli/createusb/createusb_assemble.go:317-333 | keeps the image in every case, and succeeds exactly when the detach and the sync do |
| BlobClosure.Layout.PreserveBlob | lca-cli/createusb/createusb_docker_manifest.go:146-185 | it succeeds exactly when no call fails and the blob is there, or served with its digest and size, and stores no more than that |
| BlobClosure.Layout.PreserveManifest | lca-cli/createusb/createusb_docker_manifest.go:88-140 | every stored blob hashes to its digest after success or failure, and nothing but what is reachable is stored; on success the graph of the digest is present, and it succeeds if no call fails and all is served as the digests ask for |
| BlobClosure.ClosedIsReachable | lca-cli/createusb/createusb_docker_manifest.go:83-87 | then every digest reachable in any number of steps is present with its bytes |
| BlobClosure.ClosedGrows | lca-cli/createusb/createusb_docker_manifest.go:112-125 | storing more keeps a graph complete |
| BlobClosure.Layout.PreservePinned | lca-cli/createusb/createusb_docker_manifest.go:33-81 | the index changes only in the one descriptor with the tag, and not at all on failure; it succeeds if no call fails, all is served, and exactly one descriptor has the tag |

## Left out

- Kubernetes clients, watches, predicates, retries, RBAC and manager start-up: the API server is a map holding the resources.
- Failing API updates inside a reconcile: they are assumed to succeed; dying between two of them is modelled.
- A reconcile that fails to query rpm-ostree after the gate writes nothing and is not a step of its own.
- Controller.Host.PrePivot: backups, manifest export, cluster configuration and their errors are the outcomes PreWaits, PreFails and PreErrors; updates that change only the message are not repeated.
- Pivot.InitKeeps: a saved copy that cannot be parsed, and API errors in InitIBU, are not modelled.
- The branch of startRollback without the set-default feature.
- Creating a missing resource from inside Reconcile: it is the start of the controller here.
- Exclusion.Exclusion: reboots, pivots, and controller starts that restore a saved copy are not steps of the two-controller runs, as the resources live in one cluster database; a start without a saved copy changes neither resource.
- Exclusion.ConfigAndRollbackTogether: stored valid stages are a parameter of the IPConfig handlers, as they may be stale.
- IPConfig network status, address comparison, stateroot names and the lca-cli ip-config commands: the phases are outcomes.
- Merge.MustHaveSound: fmt.Sprint, quantity parsing and the sort of printed elements are parameters of which only that a string prints as itself and that sorting permutes is assumed.
- Merge.NamedMergeIsByName: asks that names are not conflated as quantities and that printed elements are distinct, which the code needs too.
- Merge.ScalarMergeIsUnion: for the comparison in which zero values are not taken for nil.
- Errors of json.Marshal in mergeSpecs, which JSON values do not cause.
- Merge.EmptyMapDisplacesTemplate: the stored nil map is marshalled to null by the source and is an empty map here; int64 and float64 values are one kind of number.
- Cleanup.Host.CleanupStateroot: a stat of the directory that fails although it exists is taken for a missing directory by the source, and is not modelled.
- Cleanup.Host.CleanupUnbooted: plain files beside the stateroot directories, and what rpm-ostree cleanup removes, are not modelled.
- Waves.SortAndGroupByApplyWave: names are compared by characters; the library sort is represented by its unique result.
- ExportLoad.Load: marshalling and decoding of a single manifest is an optional content.
- SettledRuns.NoRollbackAfterCleanup: automatic rollbacks after Idle has been accepted are steps only in NoRollbackWhateverBoots; seed image edits on a resource that is not idle are not steps of these runs.
- SettledRuns.StepSettled: automatic rollbacks from a settled stateroot are not steps, as the other one may have a rollback to offer.
- BackupRestore.BackupCluster.HandleBackup: labels on backed-up objects are not modelled, and whether the deletion requests are processed in time is nondeterministic; the groups are given, so that errors in reading them are not modelled.
- MediaLayout.LayoutFits: sfdisk is modelled by the placement rule its MiB alignment and explicit start give; the MBR limit of 2 TiB and free primary slots are not modelled.
- MediaAssembly.Host.AssembleMedia: losetup that reports no device although it attached one is taken for a failed attach.
- BlobClosure.Layout.PreserveManifest: hashes are assumed acyclic, and a manifest or blob is served with the same bytes and media type each time; that success implies a graph served as asked for is stated of the blobs only when they are not already stored under the same digest.
- Seed generation, recert, cluster configuration, certificates, pre-caching, image garbage collection, history and metrics: copying and plumbing.
