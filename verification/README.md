# Verified model of Argo Rollouts

Argo Rollouts replaces the pods of an application step by step. Its controllers are reconcilers: each call looks at a
snapshot of the cluster and moves it a little further. This project models what they decide and proves what holds of
one reconcile and of whole runs, in which users and the environment act between reconciles.

- `ReplicaSets`, `CanaryPlanner`, `CanaryReconcile`: the replica planner of a basic canary and the loop that applies
  it to the stable, the new and the old ReplicaSets, one change per reconcile.
- `CanaryRuns`, `CanaryFloor`, `CanaryConvergence`, `CanaryTargets`: the surge ceiling, the availability floor,
  convergence to the desired counts, and what these are in plain numbers.
- `Pause`, `CanaryStatus`, `CanaryTrace`, `CanaryProgress`, `CanaryOutcomes`, `CanaryPauses`: pause conditions and
  aborts, the status machine of a canary, which steps precede a change of the stable hash, how the planner's progress
  completes a step, what resets, promotes, aborts or pauses a rollout, and what begins and ends a pause step.
- `ScaleDownDelay`, `BlueGreen`, `BlueGreenController`, `BlueGreenGate`, `BlueGreenApproval`, `BlueGreenAbort`,
  `BlueGreenOutcomes`, `BlueGreenSizes`, `BlueGreenCleanup`, `BlueGreenCapacity`, `BlueGreenStandby`: the blue-green
  reconcile as functions and as the controller's methods; pauses, promotion by a user or after a delay, and what gets
  past an approval; aborts, resets and promotions; the sizes of the new, the serving and the old sets, and the deadlines
  that delay the scale-down of old ones.
- `Analysis`, `AnalysisEngine`, `AnalysisMetrics`, `AnalysisHistory`, `AnalysisBounds`, `AnalysisLimits`,
  `AnalysisReplies`, `AnalysisTrimming`, `AnalysisTermination`, `AnalysisSchedule`, `AnalysisInterleaving`: the
  AnalysisRun engine. A ghost history keeps every measurement ever taken; counters and verdicts are proved to agree with
  it although the run stores only the latest ten.
- `Experiments`, `ExperimentRuns`, `ExperimentOutcomes`, `ExperimentPods`: the experiment reconcile, its verdict, that
  completed phases stay, and what becomes of the AnalysisRuns and the pods that it finds.
- `Varint`, `Protobuf`, `ProtobufBuffer`, `ProtobufRoundTrip`, `ProtobufWire`, `ProtobufDecoded`, `ProtobufSkip`,
  `ProtobufMerge`, `ProtobufMessages`: the generated codec. The generator emits the same statements for every message; a
  schema lists what differs. Base 128 varints and wire types follow the Protocol Buffers Encoding specification,
  sections "Base 128 Varints" and "Message Structure".
- `EphemeralMetadata`, `CollisionCounter`: injected pod metadata, and the loop that creates an object under a free name.

Code that changes state is modelled by classes and loops, each method proved against a function of its inputs or of
the old state; the theorems are lemmas about these functions. No lemma relies on automatic induction: its body is the
whole proof. `Wrappers` holds Option, Result, Min and Max.

Modelling decisions:

- A reconcile is one step on a snapshot. Times are integers in seconds, one clock reading per reconcile. What comes
  from outside (provider replies, pod availability, failures of API calls, analysis outcomes) is an input.
- Go's float64 percentages are exact rationals, and int32 and int64 counters are unbounded integers, except in the
  codec, where 64-bit and 32-bit truncation is written out.
- Pod template hashes are opaque strings and a hash stands for its template. The hash of the canary steps is
  identified with the steps.
- An annotation that holds JSON is the value it encodes. An empty list of metric results and a missing one are the same.

Where the obvious claim is false of the code, the exact condition under which it holds is proved:

- the availability floor can be missed when a canary above its target has unavailable pods, and when old sets are
  drained while the status of another set still counts pods that it is about to lose (`FloorKeptExactlyWhen`,
  `LaggingStatusBreaksFloor`);
- under `promoteFull` the step index can become one more than the number of steps (`IndexOverrunsExactlyWhen`,
  `OverrunIsPutBack`);
- a pause step ends early and without a user when another reason paused the rollout (`PauseStepEndedByOtherReason`,
  `PauseStepIsPassed`);
- a timed pause step ends before it has lasted its duration when the step before it was skipped during its own pause,
  because the old pause is then taken for the new one (`ListedPauseDecides`, `PauseIsInherited`);
- the blue-green preview checkpoint survives a template change, although the comment on it says that it is reset then,
  and an approval given to one version can promote the next (`ChangeKeepsCheckpoint`, `StaleExactlyWhen`,
  `ApprovalOutlivesTemplate`);
- a metric without any result does not hold an AnalysisRun open (`CompletesUnmeasuredExactlyWhen`);
- an experiment with required analyses can succeed although one of their AnalysisRuns was never found successful
  (`RequiredSucceededExactlyWhen`, `RequiredRunIsPassedOver`);
- injected metadata is taken back cleanly only if it shares no key with the template (`RestoredExactlyWhen`).

## Model

| member | source | states |
|---|---|---|
| CanaryPlanner.SharesCoverReplicas | utils/replicaset/canary.go:273-276 | the two rounded-up shares sum to the replicas, plus one exactly when extraReplicaAdded |
| CanaryPlanner.SharesStayPositive | utils/replicaset/canary.go:36-60 | a share is zero exactly for weight 0 or 100 or without replicas, and never more than the replicas |
| CanaryPlanner.ResolveFenceposts | utils/replicaset/replicaset.go:366-382 | surge and unavailability are never both zero |
| CanaryTargets.SurgeIsRoundedUp | utils/replicaset/replicaset.go:366-419 | maxSurge is the least number of pods that is at least the percentage, 25% by default, or the number given |
| CanaryTargets.UnavailableIsRoundedDown | utils/replicaset/replicaset.go:366-407 | maxUnavailable is the greatest number that is at most the percentage; 1 if both budgets would be zero, and never more than the replicas |
| CanaryPlanner.GetCurrentSetWeight | utils/replicaset/canary.go:312-330 | the backward search returns the weight of the last step that sets one |
| CanaryPlanner.LastWeightIsFromAStep | utils/replicaset/canary.go:312-330 | a non-zero weight in force comes from a step with no weight after it |
| CanaryPlanner.UseSetCanaryScale | utils/replicaset/canary.go:333-354 | the backward search returns the last explicit scale, or none once traffic is to be matched |
| CanaryPlanner.SpendBudgets | utils/replicaset/canary.go:160-216 | the branches over mutable budgets are four grants: stable then new grow below the ceiling, new then stable shrink above the floor once no old pods remain |
| CanaryPlanner.CalculateReplicaCountsForCanary | utils/replicaset/canary.go:100-216 | the loop-based planner computes the planned counts for fixed scale, traffic routing and basic canary |
| ReplicaSets.GetReplicaCountForReplicaSets | utils/replicaset/replicaset.go:314-322 | the loop computes the sum of the specs |
| ReplicaSets.GetAvailableReplicaCountForReplicaSets | utils/replicaset/replicaset.go:325-333 | the loop computes the sum of the available pods |
| CanaryReconcile.RolloutContext.CleanupUnhealthyReplicas | rollout/replicaset.go:164-194 | every old set is cut to its available pods, stopping with an error at one that reports more than it asks for |
| CanaryReconcile.RolloutContext.DrainOldReplicaSets | rollout/canary.go:163-221 | old sets are drained in order while the budget lasts, referenced ones are skipped, and the count is what was taken |
| CanaryReconcile.RolloutContext.ScaleDownOldReplicaSetsForCanary | rollout/canary.go:143-224 | cleanup and drain together, with the budget computed from the pods available before |
| CanaryReconcile.RolloutContext.ReconcileCanaryReplicaSets | rollout/canary.go:325-357 | stable, then new, then old sets, stopping after the first change |
| CanaryFloor.ReportsExactlyWhen | rollout/canary.go:325-357 | a decision with any valid budget reports a change exactly when one of the two sets is to change, or old sets shrink without a failed cleanup while pods can be spared |
| CanaryRuns.ReconcileRespectsCeiling | utils/replicaset/canary.go:130-216 | one reconcile keeps the total at most the larger of what it was and replicas + maxSurge + 1 |
| CanaryRuns.DecisionRespectsCeiling | utils/replicaset/canary.go:130-216 | the same with the extra pod only when extraReplicaAdded |
| CanaryRuns.CreationRespectsCeiling | rollout/sync.go:162-168 | creating the new set respects the ceiling too |
| CanaryRuns.SurgeCeilingOverRuns | utils/replicaset/canary.go:130-216 | in every reachable state of a run with fixed replicas the total is at most the larger of its start and replicas + maxSurge + 1 |
| CanaryFloor.FloorKeptExactlyWhen | utils/replicaset/canary.go:171-268 | for every snapshot, a reconcile leaves the pods in service at replicas - maxUnavailable, or at what they were, if and only if the stage that acts is safe: there is nothing to cut in one of the two sets, old pods go first, no budget is left for the stable set, or what the stable set is cut to makes up for the canary's unavailable pods; and for the old sets, no pods on their way out are counted, or what may be drained can be spared |
| CanaryFloor.FloorHypotheses | utils/replicaset/canary.go:244-268 | with no pods on their way out, a canary that is not above its target, a canary whose pods are all available, or a stable set that is not above its target each keep the floor |
| CanaryFloor.SafeCanaryExactlyWhen | utils/replicaset/canary.go:171-268 | once no old sets are left, a canary is safe next to every stable set if and only if it is not above target or its available pods and the stable target reach the floor |
| CanaryFloor.OldStageTakes | rollout/canary.go:143-224 | the cleanup takes no pod out of service, and the drain takes the budget or all pods of unreferenced sets, whichever is less |
| CanaryFloor.ReferencedIsNotDrained | rollout/canary.go:163-221 | an old set that the status still refers to keeps all pods that serve |
| CanaryFloor.LaggingStatusBreaksFloor | rollout/canary.go:150-155 | a concrete snapshot in which draining old sets misses the floor because the stable set's status has not followed its size yet |
| CanaryConvergence.RoundComesCloser | rollout/canary.go:325-357 | away from the target a reconcile and the pods catching up strictly decrease the distance; at it nothing changes |
| CanaryConvergence.FixpointIsDesired | utils/replicaset/canary.go:21-33 | the fixpoints of reconciling are exactly the states of AtDesiredReplicaCountsForCanary |
| CanaryConvergence.CanaryConverges | rollout/canary.go:325-357 | after as many rounds as the initial distance the desired counts are reached and kept |
| CanaryConvergence.NoBudgetNoProgress | utils/replicaset/replicaset.go:366-382 | with neither surge nor unavailability the canary would be stuck, so the fencepost rule is needed |
| CanaryTargets.AbortedCanaryIsTakenBack | utils/replicaset/canary.go:312-330 | from every state in the middle of an update an aborted basic canary ends and stays at no canary pods and a stable set of all replicas |
| CanaryTargets.FinishedCanaryGetsAll | utils/replicaset/canary.go:312-330 | with no step left, under a full promotion, or at the stable version, the canary ends and stays at all replicas and the stable set at none |
| CanaryTargets.CanaryGetsItsWeight | utils/replicaset/canary.go:100-216 | otherwise both sets end and stay at the ceilings of their shares under the last weight set at or before the current step, 0 if there is none |
| CanaryTargets.OnlySetIsFull | utils/replicaset/canary.go:130-157 | a set that is alone gets all replicas in one reconcile, whatever the steps say |
| CanaryTargets.OldPodsGoFirst | utils/replicaset/canary.go:171-216 | with any valid budget, neither the new nor the stable set gives up pods while old sets ask for some |
| CanaryTargets.TrafficRoutedInTwo | utils/replicaset/canary.go:100-128 | with traffic routing two reconciles reach a stable set of all replicas and the canary that is wanted: the explicit scale in force in pods or per cent, else the weight in force, 0 for an abort, all at the end |
| Pause.PauseContext.CalculatePauseStatus | rollout/pause.go:58-116 | the loops compute which conditions are kept and added and the new abort status |
| Pause.ListedReasons | rollout/pause.go:85-112 | a reason is listed afterwards if and only if it was and is not removed, or is new and added, and nothing aborts or clears |
| Pause.PausedExactlyWhenListed | rollout/pause.go:58-116 | after any events, a status the controller has just written has ControllerPause exactly when it lists a condition |
| Pause.ConditionTimes | rollout/pause.go:85-112 | a condition that stays keeps its start time, one whose reason is new starts now, and there are no others |
| Pause.RetryEndsAbort | rollout/pause.go:58-83 | a user's abort lasts through writes that do not take it back, and a retry ends it with the next write |
| Pause.PauseStepEndedByOtherReason | rollout/pause.go:184-202 | a pause step, indefinite or timed, counts as completed before its own pause has expired exactly when another reason has paused the rollout and the step's pause has not begun |
| Pause.InconclusiveAnalysisSkipsPauseStep | rollout/pause.go:184-202 | a status the controller writes in which that happens, for any duration |
| Pause.PauseStepNeedsUser | rollout/pause.go:184-202 | with no other reason in play the step ends exactly when its own pause has expired, or when a user resumes |
| Pause.RewritingIsQuiet | rollout/pause.go:60-77 | writing a written status again without requests, or while it stays aborted, changes nothing, so the abort time is kept |
| CanaryStatus.RolloutContext.SyncRolloutStatusCanary | rollout/canary.go:258-323 | the statements compute the new status: reset, promotion, abort, completed step or no change |
| CanaryStatus.RolloutContext.ReconcileCanaryPause | rollout/canary.go:100-140 | a pause is requested exactly for an unpaused pause step of a rollout that the controller has not paused |
| CanaryPauses.PauseStartsExactlyWhen | rollout/canary.go:100-140 | the persisted status gets the pause of a step, from now on, if and only if the rollout is at a pause step, neither paused nor promoted nor aborted nor reset, and no earlier stage of the reconcile had something to do |
| CanaryPauses.PauseStepLasts | rollout/pause.go:184-202 | in every run without inconclusive analyses the controller completes a pause step only after a user has resumed the rollout since the last reconcile, or when the step is timed and the listed pause, which the controller began at a pause step, is older than its duration; at this very step unless a user skipped one since |
| CanaryPauses.PauseStepIsLeft | rollout/canary.go:258-323 | so the index leaves a pause step only then, or when a user skips it, or by a reset, an abort or a promotion |
| CanaryPauses.ListedPauseDecides | rollout/pause.go:184-202 | while a pause is listed the step is completed if and only if it is timed and that pause is older, whichever step it began at |
| CanaryPauses.PauseIsInherited | pkg/kubectl-argo-rollouts/cmd/promote/promote.go:136-147 | a concrete run in which a step of 60 seconds ends 11 seconds after it was reached, because a user had skipped the step before during its pause |
| CanaryOutcomes.ResetStartsOver | rollout/sync.go:836-848 | a new template or new steps start over at the first step, or behind the last for the stable version, without pauses, aborts or a requested promotion |
| CanaryOutcomes.PromotesExactlyWhen | rollout/sync.go:851-937 | the new set becomes stable if and only if there is no stable set, or it has all replicas available and either a full promotion is requested or all steps are done and nothing aborts; it then starts behind the last step |
| CanaryOutcomes.AbortGoesBack | rollout/canary.go:291-300 | an abort takes the index back, keeps the time of the abort and drops all pauses |
| CanaryOutcomes.InconclusivePauses | rollout/pause.go:85-112 | an inconclusive analysis pauses the rollout in the same reconcile, unless that resets, promotes or aborts it |
| CanaryOutcomes.PausedKeepsStep | rollout/canary.go:226-256 | a rollout that its spec pauses stays at its step, unless it is reset, promoted or aborted |
| CanaryProgress.CompletedWeightStepIsReached | rollout/canary.go:226-256 | a weight step of a basic canary that counts as completed has exactly the available pods of its weight in both sets, none in old ones, and all replicas together |
| CanaryProgress.CompletedScaleStepIsReached | rollout/canary.go:226-256 | a completed step under traffic routing has exactly the canary pods that are wanted, next to a full stable set and no old pods |
| CanaryProgress.StepIsTakenExactlyWhen | rollout/canary.go:226-256 | the controller takes a step with an experiment or an analysis if and only if that has succeeded, and one with a scale or a weight if and only if the counts are reached and the weight is not found to be wrong |
| CanaryProgress.WeightStepIsTaken | rollout/canary.go:303-318 | after as many rounds of the planner as its distance from the target the controller takes the step |
| CanaryStatus.RolloutContext.PromoteStable | rollout/sync.go:907-937 | the current hash becomes stable and the index moves behind the last step |
| CanaryStatus.RolloutContext.Reconcile | rollout/canary.go:19-86 | which requests reach the status in which stage of the reconcile, including syncReplicasOnly |
| CanaryTrace.IndexMovesByOne | rollout/canary.go:305-318 | outside resets, aborts and promotions the index stays or rises by one, and only when the step's own condition holds |
| CanaryTrace.ReachableIsTracked | rollout/canary.go:258-323 | in every reachable state the index is within the steps and the log lists exactly the steps before it |
| CanaryTrace.StableMovesAfterAllSteps | rollout/sync.go:851-937 | StableRS moves to another hash only when that set is fully available, not aborted, and all steps were taken in order since the reset that introduced the hash |
| CanaryTrace.EntriesAreEarned | rollout/canary.go:226-256 | in every reachable state each logged step was taken at an event of its own, in the order of the log and with no restart since: a user skipped it, or it was current at a reconcile and its condition held |
| CanaryTrace.IndexOverrunsExactlyWhen | rollout/canary.go:282-313 | the index passes the number of steps if and only if a full promotion is requested, neither template nor steps have changed, the stable set exists, the new set is not fully available and the current step is complete |
| CanaryTrace.ReachableIsRanged | rollout/canary.go:258-323 | in every run, full promotions included, the index is within the steps, or one past them while a full promotion is requested |
| CanaryTrace.OverrunIsPutBack | rollout/canary.go:282-313 | the next reconcile puts such an index back |
| CanaryTrace.IndexCanOverrun | rollout/canary.go:282-313 | a concrete reconcile after which the index is one past the steps |
| CanaryTrace.PauseStepIsPassed | rollout/pause.go:184-202 | a concrete run in which the controller moves past an indefinite pause step and no user does anything but change the template |
| ScaleDownDelay.ScaleDownLoop | rollout/bluegreen.go:208-256 | the loop over the sets, newest first, computes the sizes and reports whether anything changed |
| ScaleDownDelay.KeptExactlyWhen | rollout/bluegreen.go:208-256 | whatever the order of the input, an unreferenced set stays at full size if and only if its deadline is ahead and fewer delayed sets than the limit are newer, and otherwise ends at zero |
| ScaleDownDelay.KeptWithinLimit | rollout/bluegreen.go:258-270 | after the loop at most scaleDownDelayRevisionLimit unreferenced sets ask for pods |
| ScaleDownDelay.DeadlinesAfterLoop | rollout/sync.go:379-404 | a set scaled to zero loses its deadline and one that is kept has an unexpired one |
| BlueGreenCleanup.OldSetIsSized | rollout/bluegreen.go:196-256 | a reconcile gives an old set that nothing refers to all pods if and only if its deadline is ahead and fewer sets than the limit are delayed and newer, and none otherwise, unless an inconclusive analysis or an unfinished post-promotion analysis without a configured delay keeps old sets as they are |
| BlueGreenCleanup.DeadlinesAreSet | rollout/replicaset.go:28-112 | a reconcile takes the deadlines off the new and the stable set, and gives a former stable set one after scaleDownDelaySeconds, 30 by default, none for 0 |
| BlueGreenCleanup.SetIsCreatedExactlyWhen | rollout/sync.go:346-362 | a missing set is created if and only if the rollout is neither paused by its spec nor by an inconclusive analysis nor being rescaled; nothing else adds or removes sets, and a rollout so halted keeps its selector |
| BlueGreenCleanup.FailureStopsScaling | rollout/bluegreen.go:83-105 | a call that fails leaves the sets that come after it as they are |
| BlueGreenSizes.NewSetIsCreated | rollout/sync.go:131-174 | a missing set is created at the size wanted, preview size or full size, with a revision above all others |
| BlueGreenSizes.NewSetIsSized | utils/replicaset/replicaset.go:234-260 | a reconcile leaves the new set at that size, annotated with the replicas |
| BlueGreenController.RolloutContext.ReconcileBlueGreenReplicaSets | rollout/bluegreen.go:68-105 | deadlines, active, new and old sets are handled in this order, up to the call that fails |
| BlueGreenController.RolloutContext.ScaleDownOldReplicaSetsForBlueGreen | rollout/bluegreen.go:196-256 | when old sets may be scaled down, and to what |
| BlueGreenController.RolloutContext.ReconcileActiveService | rollout/service.go:83-106 | what the active service selects afterwards |
| BlueGreenAbort.AbortedMovesExactlyWhen | rollout/service.go:83-106 | a reconcile of an aborted rollout moves the selector to the stable set if and only if it reaches the service and the new set is full and ready, and never elsewhere |
| BlueGreenAbort.AbortReturnsToStable | rollout/service.go:83-106 | in every run, from the abort until a retry, a full promotion or a new template, the first such reconcile makes the service select the set that was stable at the abort |
| BlueGreenController.RolloutContext.SyncRolloutStatusBlueGreen | rollout/bluegreen.go:272-319 | the new status, and the deadline on the set that stops being stable |
| BlueGreenAbort.StableMovesExactlyWhen | rollout/sync.go:851-900 | StableRS moves if and only if the service selects another set, of the current template, and a full promotion is requested, or nothing aborts and the post-promotion analysis, if any, has succeeded or is skipped |
| BlueGreenAbort.StableWaitsForAnalysis | rollout/sync.go:851-900 | so in every run StableRS waits for post-promotion analysis |
| BlueGreenOutcomes.ChangeStartsOver | rollout/bluegreen.go:272-282 | the reconcile that notices a new template drops pauses, aborts and a requested promotion and leaves the selector alone |
| BlueGreenOutcomes.PromotionStartsOver | rollout/sync.go:907-937 | a promotion leaves no pause, no checkpoint and no requested promotion behind |
| BlueGreenOutcomes.FirstVersionIsStable | rollout/sync.go:851-900 | without a stable set, or with a service that selects nothing, the current version becomes the stable one |
| BlueGreenOutcomes.AnalysisDecides | rollout/bluegreen.go:272-319 | while another set serves, a failed analysis aborts the rollout and an inconclusive one pauses it in the same reconcile, and a requested promotion stays and overrides both |
| BlueGreenController.Reconcile | rollout/context.go:52-85 | the dispatch between syncing replicas only and the full reconcile computes the cluster after it, and keeps the active and the stable set at full size |
| BlueGreenGate.ReachableIsGated | rollout/pause.go:58-116 | until a user resumes the rollout, ControllerPause and the conditions are as the controller wrote them |
| BlueGreenGate.PauseStartsExactlyWhen | rollout/bluegreen.go:125-183 | the persisted status gets the blue-green pause if and only if the new set is ready at the size wanted, analysed, not on its way back, and promotion is not immediate, without a checkpoint and without another pause of the controller |
| BlueGreenGate.SwitchNeedsUser | rollout/pause.go:142-182 | with autoPromotionEnabled false, not fast-tracked and not aborted, the selector moves only to the new hash, and only if a user resumed the rollout since the last persisted status or the preview checkpoint is held |
| BlueGreenGate.SwitchesExactlyWhen | rollout/service.go:83-106 | and what such a reconcile needs to move it, in both directions |
| BlueGreenGate.PromotesExactlyWhen | rollout/pause.go:142-182 | with automatic promotion the selector moves if and only if the new set is full and analysed and there is a checkpoint, no delay, or a pause older than the delay |
| BlueGreenGate.FastTrackMoves | rollout/bluegreen.go:108-122 | a set within its scale-down delay, a requested full promotion and a service without a selector move it without a pause |
| BlueGreenGate.PauseEndsExactlyWhen | rollout/bluegreen.go:125-183 | a listed pause ends if and only if the new set is ready and the rollout is fast-tracked, has a checkpoint or needs no pause, or is analysed and its delay has passed |
| BlueGreenGate.ActiveSetIsNotPaused | rollout/bluegreen.go:108-122 | a new set that serves already is not paused for, and ends a listed pause once it is ready |
| BlueGreenGate.ResumeOpensGate | rollout/service.go:83-106 | the first reconcile after a user has resumed a paused rollout whose new set is ready moves the selector |
| BlueGreenGate.SwitchWaitsForDelay | rollout/pause.go:155-175 | with automatic promotion after a delay the selector moves only when the controller's pause is older than autoPromotionSeconds |
| BlueGreenGate.ChangeKeepsCheckpoint | rollout/bluegreen.go:276-342 | after the reconcile that notices a template change the checkpoint is set if and only if it was, or the old version's pause and the new set's pods would set it |
| BlueGreenGate.CheckpointIsSetExactlyWhen | rollout/bluegreen.go:326-345 | in between, the checkpoint is set if and only if it was, or the preview has its pods and is analysed, no analysis asks for a pause, and the pause is over or none is needed |
| BlueGreenGate.HeldCheckpointWasEarned | rollout/bluegreen.go:321-345 | in every run a held checkpoint was set by a persisting reconcile for the version that the status was about, and if promotion is manual after a user resumed that version or while an inconclusive analysis paused it |
| BlueGreenGate.StaleExactlyWhen | rollout/bluegreen.go:315-342 | a held checkpoint belongs to an earlier version if and only if the status is about another version than when it was set; then a reconcile has noticed a template change in between |
| BlueGreenApproval.ApprovalOutlivesTemplate | rollout/bluegreen.go:315-342 | a concrete run from a deployed version: a user approves version b, the template changes to c, and the controller promotes c under manual promotion without any user resuming it |
| BlueGreenCapacity.ReconcileKeepsServing | rollout/bluegreen.go:68-105 | one reconcile, also one that fails half-way, keeps the active and the stable set at full size |
| BlueGreenCapacity.AlwaysServing | rollout/service.go:83-106 | the same in every reachable state, through switches, aborts and rollbacks |
| BlueGreenCapacity.StableFollowsActive | rollout/sync.go:851-900 | StableRS only ever moves to what the active service selects |
| BlueGreenStandby.FormerStableStaysUp | rollout/sync.go:922-934 | in every run a set that stops being stable gets its deadline in that reconcile, and has full size in each later state until then, while the template is not its own and the revision limit leaves room for it |
| Analysis.IsWorse | utils/analysis/helpers.go:58-70 | the search over the list of statuses compares positions |
| Analysis.GetAfterSet | utils/analysis/helpers.go:97-115 | what was set is found under its name and nothing else changes |
| Analysis.ValidateMetrics | utils/analysis/factory.go:121-136 | the loop accepts exactly non-empty lists of valid metrics with distinct names |
| AnalysisLimits.ValidExactlyWhen | utils/analysis/factory.go:139-213 | which metrics are valid, with the defaults of all limits written out |
| AnalysisLimits.InvalidRunMeasuresNothing | analysis/analysis.go:37-66 | an invalid run ends in an error at its first reconcile and measures nothing |
| AnalysisEngine.AnalysisRun.GenerateMetricTasks | analysis/analysis.go:109-183 | which metrics get a task, and whether it resumes or starts a measurement |
| AnalysisTrimming.MeasuredExactlyWhen | analysis/analysis.go:109-183 | in every reachable state a metric has something to do if and only if it is undecided and due by its whole history: a measurement in flight that is to be resumed, a first one after its delay, or a further one after its interval, ten seconds after an error, as long as its count is not reached and the run is not terminating |
| AnalysisEngine.AnalysisRun.RunMeasurements | analysis/analysis.go:234-343 | the results after all measurements |
| AnalysisReplies.LastMeasurementIsAnswer | analysis/analysis.go:248-310 | a metric with something to do gets one more measurement, or that in flight is replaced, by the answer to starting one when none is in flight, to terminating it when the run is terminating and to resuming it otherwise, with its finishing time filled in, or by an error without a provider; all others keep theirs |
| AnalysisReplies.TerminateIsNotAsked | analysis/analysis.go:284-292 | in every run, two environments that differ only in what terminating gives lead to the same states as long as the run is not terminating |
| AnalysisEngine.AnalysisRun.AssessRunStatus | analysis/analysis.go:348-411 | the phases of the metrics and of the run |
| AnalysisLimits.ReachableVerdicts | analysis/analysis.go:417-488 | in every reachable state the phase of a metric is the verdict, by limits and counts written out with their defaults, on all its measurements |
| AnalysisLimits.TerminatesExactlyWhen | utils/analysis/helpers.go:83-94 | a run ends early if and only if that is asked for or some metric is failed, in error or inconclusive |
| AnalysisEngine.AnalysisRun.GarbageCollectMeasurements | analysis/analysis.go:565-598 | which results are trimmed, given which providers fail |
| AnalysisTrimming.LastTenAreStored | analysis/analysis.go:565-598 | in every run, after a reconcile in which no collection fails, each metric stores exactly the last ten measurements of its whole history, or all if there are fewer |
| AnalysisTrimming.CutExactlyWhen | analysis/analysis.go:565-598 | a result is cut to its last ten measurements if and only if it has more, its provider collects, and no collection has failed before |
| AnalysisTrimming.UncollectedKeepsAll | analysis/analysis.go:575-590 | a provider that cannot be created or fails to collect costs no measurement |
| AnalysisEngine.AnalysisRun.Reconcile | analysis/analysis.go:37-94 | the whole reconcile, with its error exits |
| AnalysisEngine.AnalysisRun.CalculateNextReconcileTime | analysis/analysis.go:492-562 | the returned time is the minimum of the metrics' due times |
| AnalysisMetrics.ReconciledResult | analysis/analysis.go:234-411 | with distinct names, what happens to a metric depends on its own result only |
| AnalysisMetrics.HeldOpenBy | analysis/analysis.go:381-400 | exactly the unfinished metrics that have a result hold the run open |
| AnalysisMetrics.WorstIsWorst | analysis/analysis.go:384-397 | the verdict is the worst status of the metrics that are done |
| AnalysisHistory.MetricStep | analysis/analysis.go:295-332 | measuring, counting and assessing one metric refine appending to its whole history |
| AnalysisHistory.HistoriesRefined | analysis/analysis.go:295-332 | in every reachable state the counters are the folds over the untrimmed history, ConsecutiveError is its trailing error streak, and the phase is the verdict on that history |
| AnalysisBounds.MeasurementBound | analysis/analysis.go:417-488 | a metric with effective count n takes at most n * (consecutiveErrorLimit + 1) measurements |
| AnalysisBounds.OneLimitExceededByOne | analysis/analysis.go:460-488 | at most one limit is exceeded, by exactly one, so the order of the checks is never observed |
| AnalysisBounds.ReachableBounds | analysis/analysis.go:417-488 | both bounds for the stored counters in every reachable state |
| AnalysisBounds.BoundEndsMetric | analysis/analysis.go:417-488 | in every reachable state a metric with that many finished measurements has ended |
| AnalysisBounds.SuffixCountsHistory | metricproviders/job/job.go:65-73 | the suffix of a started job is one more than the number of measurements ever taken |
| AnalysisBounds.SuffixesNeverRepeat | metricproviders/job/job.go:60-73 | of two jobs that a metric starts the later one has the larger suffix |
| AnalysisTermination.CompletesExactlyWhen | analysis/analysis.go:348-411 | a run completes if and only if every metric with a result is done and there is one or the run is terminating, with the worst phase |
| AnalysisTermination.CompletedPhase | utils/analysis/helpers.go:58-80 | a completed run is failed if a metric is, else in error or inconclusive if a metric is, in this order, else successful |
| AnalysisTermination.UnmeasuredExactlyWhen | analysis/analysis.go:109-155 | a metric without a result gets none in a reconcile if and only if the run is terminating, or the initial delay is unreadable, or has not passed since the recorded start |
| AnalysisTermination.CompletesUnmeasuredExactlyWhen | analysis/analysis.go:348-411 | stated on the run before: a reconcile completes a run over a metric without a result if and only if some metric is left out, all others are decided by it, and there is one of these or the run is terminating |
| AnalysisTermination.UnmeasuredMetricIsPassedOver | analysis/analysis.go:363-400 | the first reconcile of a new run completes it as successful although its second metric has not been measured |
| AnalysisTermination.NothingNewIsStarted | analysis/analysis.go:109-183 | a terminating run only resumes measurements in flight |
| AnalysisTermination.TerminatingRunCompletes | analysis/analysis.go:348-411 | the first reconcile of a terminating run that leaves nothing in flight completes it with the worst phase |
| AnalysisTermination.TerminatingForever | utils/analysis/helpers.go:83-94 | once a run is terminating it stays so |
| AnalysisTermination.CompletedForever | analysis/analysis.go:37-40 | a completed run never changes |
| AnalysisSchedule.DueExactly | analysis/analysis.go:109-183 | a metric with a recorded due time gets its task from that time on, a retry strictly after it, and not before |
| AnalysisSchedule.NothingIsEarly | analysis/analysis.go:109-183 | no task belongs to a metric whose due time is still ahead |
| AnalysisSchedule.NextReconcileHasWork | analysis/analysis.go:492-562 | strictly after the returned time there is at least one task |
| AnalysisSchedule.NothingBeforeNextReconcile | analysis/analysis.go:492-562 | before it no metric with a due time has one |
| AnalysisTrimming.LaterTaskIsAskedFor | analysis/analysis.go:492-562 | in every run a valid metric that has nothing to do now but will have later has a due time up to then |
| AnalysisTrimming.NoTimeMeansNoWork | analysis/analysis.go:492-562 | if no time is returned, no metric that has nothing to do now will have anything later |
| AnalysisInterleaving.InterleavingsAgree | analysis/analysis.go:248-343 | with distinct names every interleaving of read, compute and write steps gives each name the result of the sequential run |
| AnalysisInterleaving.ExecutionsAgree | analysis/analysis.go:248-343 | any two interleavings agree |
| AnalysisInterleaving.MeasuringInAnyOrder | analysis/analysis.go:234-343 | whatever measurements a run schedules, any order of goroutine steps gives every metric the result of measuring in order |
| AnalysisInterleaving.SameNameLosesAMeasurement | utils/analysis/factory.go:121-136 | with a repeated name some interleaving loses a measurement, so the check for duplicates is needed |
| Experiments.ExperimentContext.ReconcileTemplate | experiments/experiment.go:103-209 | a template's status after creating or scaling its set and assessing it |
| ExperimentPods.TemplateIsJudged | experiments/experiment.go:103-209 | in every run a template under way is in error when its set cannot be created, failed exactly when it lacks pods and nothing has moved for its deadline, 600 seconds by default, and otherwise progressing, running or successful by its pods, the duration and the end of the experiment; its counts are those of the set |
| Experiments.ExperimentContext.RequiredAnalysisRunsSuccessful | utils/experiment/experiment.go:65-81 | the loop holds exactly if there are required analyses and all have succeeded |
| Experiments.ExperimentContext.AssessTemplates | experiments/experiment.go:444-468 | the phase for the worst template |
| Experiments.ExperimentContext.AssessAnalysisRuns | experiments/experiment.go:475-495 | the phase for the worst analysis |
| Experiments.ExperimentContext.CalculateStatus | experiments/experiment.go:385-440 | the experiment's phase and when it became available |
| ExperimentPods.TerminatesExactlyWhen | utils/experiment/experiment.go:32-52 | what brings an experiment to its end |
| ExperimentPods.AvailableExactlyWhen | experiments/experiment.go:385-440 | in every run an experiment becomes available in the first reconcile that leaves a template running and none progressing or bad |
| Experiments.ExperimentContext.Reconcile | experiments/experiment.go:84-99 | all templates and analyses are updated from the old status, then the phase is calculated |
| ExperimentOutcomes.FoundPhaseIsRecorded | experiments/experiment.go:253-351 | in every run the phase of an unfinished AnalysisRun that is found is what is recorded, unless the experiment is terminating |
| ExperimentOutcomes.UnfinishedRunStays | experiments/experiment.go:292-351 | an AnalysisRun that is gone is an error, and a terminating experiment keeps the recorded phase unless terminating the run fails |
| ExperimentOutcomes.UncreatedRunPhase | experiments/experiment.go:253-325 | without an AnalysisRun an analysis is in error exactly when it was, its template is missing, or the run cannot be created |
| ExperimentOutcomes.BadRunEndsExperiment | experiments/experiment.go:385-495 | a running experiment ends in a bad phase in the reconcile in which it finds a failed, erroneous or inconclusive AnalysisRun |
| ExperimentOutcomes.RequiredSucceededExactlyWhen | experiments/experiment.go:385-495 | when an experiment becomes successful, a required AnalysisRun was found successful at some reconcile if and only if a phase is recorded for it |
| ExperimentOutcomes.RequiredRunIsPassedOver | experiments/experiment.go:385-440 | a concrete run of a successful experiment that nobody terminated and whose required AnalysisRun never had a phase |
| ExperimentRuns.PhaseIsVerdict | experiments/experiment.go:385-495 | the nested case distinctions give the declarative verdict: bad templates, then bad analyses, then success or progress |
| ExperimentRuns.VerdictIsDeserved | experiments/experiment.go:385-495 | the phase is bad if and only if some template or analysis is |
| ExperimentRuns.SuccessIsDeserved | experiments/experiment.go:385-495 | when an experiment becomes successful no template is failed or in error and no analysis is bad |
| ExperimentRuns.SuccessNeedsDuration | experiments/experiment.go:173-196 | an experiment that nobody terminates and that has no required analyses succeeds only after its duration has passed |
| ExperimentRuns.FailsOnlyWhenStuck | experiments/experiment.go:145-196 | a template fails only if nothing about its set changed in this reconcile and its last change is older than the deadline |
| ExperimentRuns.CompletedForever | experiments/experiment.go:103-209 | completed templates, analyses and experiments keep their phase in every run |
| ExperimentRuns.RunStaysCompleted | experiments/experiment.go:253-351 | an analysis in error without a run is not started again, because it makes the experiment terminate |
| ExperimentRuns.RunIsCreatedExactlyWhen | experiments/experiment.go:253-325 | in every run of an experiment an analysis gets an AnalysisRun exactly when it has none, the experiment is available and not terminating, and the run can be created |
| ExperimentRuns.RunIsNeverReplaced | experiments/experiment.go:253-351 | an analysis keeps the AnalysisRun it has, so it never has more than one |
| Varint.SovIsLength | pkg/apiclient/rollout/rollout.pb.go:3926-3928 | the size formula is the number of bytes of the varint |
| Varint.EncodeVarint | pkg/apiclient/rollout/rollout.pb.go:3340-3350 | the bytes in front of the offset are the varint and the rest of the buffer is unchanged |
| Varint.DecodeVarint | pkg/apiclient/rollout/rollout.pb.go:3937-3951 | the loop with its overflow and end-of-input errors |
| Varint.ReadBack | pkg/apiclient/rollout/rollout.pb.go:3937-3951 | a varint is read back wherever it stands |
| Varint.SignedRoundTrip | pkg/apiclient/rollout/rollout.pb.go:7249-7269 | negative 64-bit and 32-bit numbers survive |
| ProtobufBuffer.Size | pkg/apiclient/rollout/rollout.pb.go:3881-3924 | the size is the length of the encoding |
| ProtobufBuffer.MarshalToSizedBuffer | pkg/apiclient/rollout/rollout.pb.go:3263-3338 | the back-to-front writer leaves the encoding in front of the end and touches nothing else |
| ProtobufBuffer.Marshal | pkg/apiclient/rollout/rollout.pb.go:2123-2131 | the buffer of that size is filled exactly |
| ProtobufBuffer.SkipRollout | pkg/apiclient/rollout/rollout.pb.go:7433-7510 | the loop over groups computes the end of the first field |
| ProtobufBuffer.UnmarshalInto | pkg/apiclient/rollout/rollout.pb.go:3932-4046 | the parser loop computes the decoded message or the error |
| ProtobufRoundTrip.RoundTrip | pkg/apiclient/rollout/rollout.pb.go:3932-4046 | decoding undoes encoding for every schema and message, nested and repeated fields in order and unknown fields verbatim |
| ProtobufWire.Transmit | pkg/apiclient/rollout/rollout.pb.go:2123-2131 | the buffer that Marshal fills is read back as the message by the loop of Unmarshal, for every well-formed message |
| ProtobufDecoded.DecodedIsWellFormed | pkg/apiclient/rollout/rollout.pb.go:7153-7432 | whatever is decoded has values in range and complete unknown fields |
| ProtobufDecoded.DecodedSurvives | pkg/apiclient/rollout/rollout.pb.go:3932-4046 | every decoded message survives being encoded and decoded again |
| ProtobufDecoded.SkipAgrees | pkg/apiclient/rollout/rollout.pb.go:7433-7510 | skipping a field looks at nothing behind it |
| ProtobufSkip.WireFieldIsSkipped | pkg/apiclient/rollout/rollout.pb.go:7433-7510 | a field of any wire type, eight and four bytes and nested groups included, is skipped as a whole |
| ProtobufSkip.UnendingVarint | pkg/apiclient/rollout/rollout.pb.go:7433-7470 | reading and skipping refuse a varint of more than ten bytes and one that is cut off |
| ProtobufMerge.ConcatenationMerges | pkg/apiclient/rollout/rollout.pb.go:3932-4046 | for every schema, parsing a message and then another into it is parsing the two as one buffer |
| ProtobufMerge.EmbeddedFieldsMerge | pkg/apiclient/rollout/rollout.pb.go:5016-5052 | an embedded message that occurs twice is the one that the two payloads give together |
| ProtobufMerge.WrongWireTypeIsRefused | pkg/apiclient/rollout/rollout.pb.go:3961-3964 | a field of the schema with another wire type than its own is an error |
| ProtobufMerge.LengthIsChecked | pkg/apiclient/rollout/rollout.pb.go:3979-3990 | a length that is negative or overflows is invalid, and one that ends behind the buffer is a truncated message |
| ProtobufMerge.UnknownLengthIsChecked | pkg/apiclient/rollout/rollout.pb.go:4024-4038 | the same of an unknown field |
| ProtobufMessages.InfoSchemasAreValid | pkg/apiclient/rollout/rollout.proto:73-157 | the schemas of the nested info messages have distinct field numbers all the way down |
| ProtobufMessages.LargeTag | pkg/apiclient/rollout/rollout.pb.go:2668-2700 | fields 16 to 31 have two-byte tags |
| ProtobufMessages.UndoRolloutRequestBytes | pkg/apiclient/rollout/rollout.pb.go:2275-2308 | the bytes are the generated statements' tags 0xa, 0x10 and 0x1a with their payloads |
| ProtobufMessages.PromoteRolloutRequestBytes | pkg/apiclient/rollout/rollout.pb.go:2362-2397 | likewise, with a false flag not written |
| ProtobufMessages.UndoRolloutRequestRoundTrip | pkg/apiclient/rollout/rollout.pb.go:4341-4474 | these bytes are parsed back, for any 64-bit revision |
| EphemeralMetadata.InjectMap | utils/replicaset/canary.go:430-456 | the loop over map keys in any order computes the injected map |
| EphemeralMetadata.RemoveFromMap | utils/replicaset/canary.go:458-481 | the loop removes exactly what is recorded and no longer desired |
| EphemeralMetadata.SyncReplicaSetEphemeralPodMetadata | utils/replicaset/canary.go:486-505 | the template and the record afterwards, and whether anything was modified |
| EphemeralMetadata.OtherKeysUntouched | utils/replicaset/canary.go:430-481 | only injected or desired keys are touched |
| EphemeralMetadata.NilMapStaysNil | utils/replicaset/canary.go:430-481 | a missing map is made only for keys to inject |
| EphemeralMetadata.RepeatIsQuiet | utils/replicaset/canary.go:486-505 | repeating a call reports no modification |
| EphemeralMetadata.RoundTrip | utils/replicaset/canary.go:408-505 | any sequence of calls followed by a removal restores the labels and annotations of a template with keys of its own |
| EphemeralMetadata.RestoredExactlyWhen | utils/replicaset/canary.go:430-505 | any sequence of calls followed by a removal restores them if and only if no call that modified the template wanted a key that the original has |
| CollisionCounter.NamesDiffer | utils/analysis/helpers.go:227-229 | the names tried are all different |
| CollisionCounter.NamesInUse | utils/analysis/helpers.go:206-230 | n names in use need n objects |
| CollisionCounter.Cluster.CreateWithCollisionCounter | utils/analysis/helpers.go:198-231 | the unbounded loop ends within one more attempt than there are objects, at the first usable name, and creates at most one object |
| CollisionCounter.ReturnedIsOurs | rollout/experiment.go:202-230 | the object returned is fresh, or unfinished, equal and of the same owner |
| CollisionCounter.SecondCallReturnsTheSame | rollout/experiment.go:202-230 | while it is unfinished the same call returns it again and creates nothing |

## Left out

- Kubernetes clients, informers, work queues, patches, events, logging, metrics and condition messages.
- Metric providers, the expression language and argument templates: a measurement is what the provider returns.
- Traffic routers, and in the canary reconcile the scale-down delay of old sets under traffic routing: the planner has
  the traffic-routed and setCanaryScale branches, the ceiling, floor and convergence theorems are about basic canaries.
- float64 rounding: the source computes with floats, so that a product such as 100 * 0.07 can round up once more.
- int32 overflow of replica counts and counters.
- Negative maxSurge and maxUnavailable, which validation does not exclude: the basic-canary theorems require them not to be negative.
- Deletion of old sets by the revision history limit, hash collisions, restarts of pods and anti-affinity rules.
- The revision number that a set gets when it becomes new again, revisions that do not parse, and ties between revisions.
- Canary runs: the choice of stages in one reconcile is an input of `CanaryStatus`; `CanaryReconcile` models what the scaling stage does.
- Blue-green: the preview service's selector, and the panic on a missing new set while post-promotion analysis is configured.
- Experiments: collisions of ReplicaSet names, retries that clear the status, and edits of the templates during a run.
- The codec: what a failed Unmarshal leaves in the message, and the codecs of ObjectMeta and CanaryStep, whose bytes are kept as they are.
- Goroutines sharing the backing array of a measurement list: results are values here.
- CanaryReconcile.RolloutContext.CleanupUnhealthyReplicas: does not sort by creation time, which decides only what is cut before an error ends the loop, and assumes that every update succeeds.
- CanaryReconcile.RolloutContext.DrainOldReplicaSets: assumes that every update of a set succeeds; a failing one ends the loop early.
- CanaryReconcile.RolloutContext.ScaleDownOldReplicaSetsForCanary: as cleanup and drain.
- CanaryReconcile.RolloutContext.ReconcileCanaryReplicaSets: leaves out API errors and the removal of scale-down deadlines from the new and the stable set, which a basic canary never reads.
- CanaryStatus.RolloutContext.PromoteStable: covers the status only, not the scale-down delay of the previous stable set.
- CanaryProgress.WeightStepIsTaken: is about rounds in which the pods keep up and nobody changes or pauses the rollout.
- BlueGreenStandby.FormerStableStaysUp: assumes distinct revisions, and like AlwaysServing that previewReplicaCount is not used.
- BlueGreenCapacity.AlwaysServing: assumes that previewReplicaCount is not used and the replica count does not change, because both resize sets on purpose.
- CanaryTrace.StableMovesAfterAllSteps: excludes requested full promotions, which skip the steps on purpose, and a stable set deleted by hand.
- ScaleDownDelay.KeptExactlyWhen: assumes that every update of a set in the loop succeeds.
- CanaryPauses.PauseStepLasts: is about runs without inconclusive analyses; what these do to a pause step is PauseStepEndedByOtherReason.
- CanaryTargets.CanaryGetsItsWeight: is about rounds in which the pods keep up, from states in the middle of an update, like CanaryConverges; so are AbortedCanaryIsTakenBack and FinishedCanaryGetsAll.
- BlueGreenCleanup.OldSetIsSized: assumes that no other set has the hash of the old one, and distinct revisions if there is a revision limit.
- ProtobufMerge.ConcatenationMerges: says that both ways fail or both give the same message, not that they fail with the same error.
