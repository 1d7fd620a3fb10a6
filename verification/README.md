# SchemaBot, modelled in Dafny

SchemaBot rolls schema changes out over several deployments. Many drivers claim
operation rows, drive them, and race to project one parent apply state with a
compare-and-swap; HTTP handlers write durable control requests (stop, start,
cancel, release, revert) into the same tables. Around that sit a configuration
validator and router, a planner that fans work out per shard, a paged crawl over
webhook deliveries, a storage-schema guard and several small parsers.

The protocol parts are state machines over arbitrary sequences of steps, so their
results hold for every interleaving. Code that updates fields, maps or lists is a
class or a method with a loop, proved against a function or a predicate; the
promises are then lemmas about that function or predicate.

| file | models |
|---|---|
| `States.dfy`, `Rollout.dfy`, `Verdicts.dfy` | apply and task states, deriving the apply state from its children, and what each verdict means |
| `Projection.dfy`, `Writes.dfy` | the parent projection: stale copies, compare-and-swap, summaries, gauge, timestamps |
| `Claims.dfy` | one apply's operation rows with its stored parent: claims, drives, control writes, projections from stale copies, reapply and expiry as steps of one machine |
| `Gates.dfy` | what each claim gate admits and each step writes, and the order of copies |
| `Drives.dfy`, `Progress.dfy` | which rows that machine drives and in what order, and when a rollout can still move |
| `Control.dfy` | the control-request table and its handlers |
| `Routing.dfy`, `Routes.dfy` | configuration validation, target resolution, client selection and cache |
| `Fanout.dfy` | building operation groups from a sharded plan |
| `Redrive.dfy` | the webhook redrive crawl |
| `SourcePolicy.dfy` | schema path policy and directory hints |
| `StorageSchema.dfy` | the startup storage-schema guard across pods |
| `DdlFormat.dfy`, `AlterSplit.dfy`, `Xfcc.dfy` | DDL splitting and formatting, client-certificate header parsing |
| `Rollback.dfy`, `Heartbeat.dfy` | choosing a rollback source, stopping a drive whose heartbeat fails |
| `Text.dfy`, `Sorting.dfy`, `Wrappers.dfy` | shared strings, sorting, Option and Result |

`dafny verify dfyconfig.toml` checks the whole project.

## Where the code does not do what one would expect

Each of these has a lemma for the failing family or a run that reaches it, and an
exact condition where one is named "Iff" or "exactly" below.

- A start request resumes nothing while a multi-operation apply is stopped: the
  drive reloads the parent, finds it terminal and mirrors stopped back onto the
  row, although `pkg/state/README.md` describes stopped, resuming, running. In no
  interleaving is a row driven unless the parent failed and was reapplied or
  reopened: `Drives.DriveBeginsIff`, `Drives.ParentTurnsLiveIff`,
  `Drives.DrivenOnlyAfterFailure`, `Drives.StoppedApplyIsNotResumed`.
- Cutovers follow rollout order until a failed apply is reapplied; then an earlier
  row can cut over after a later one: `Claims.CutoversInvertOnlyAfterFailure`,
  `Claims.ReapplyInvertsCutovers`.
- Retries are not gated by order, so a reapply drives two failed deployments of a
  rolling rollout at once. Exactly when a run keeps to one deployment:
  `Drives.RolloutOrderIff`, `Drives.ReapplyDrivesTwoDeployments`.
- Under `on_failure: continue` a failed shard leaves its namespace's finalizer, and
  every later deployment that copies in order, waiting exactly until a stop or a
  reapply: `Progress.StrandedUntilStoppedOrReapplied`,
  `Progress.FinalizerBehindFailureStrands`, `Progress.LiveRolloutCanMoveIff`.
- A stale copy can put an older completion time on a later terminal episode:
  `Projection.CompletionTimeChangesInARunIff`, `Projection.CompletionTimeCanRewind`.
- A start that learns of a stop from the remote data plane stamps a completion
  time on a stopped apply, which no projection does:
  `Control.StartStampsStoppedIff`.
- Two release or revert requests split between their read and their write can
  lose the requester or leave both intents pending: `Control.SplitReleaseRewritesIff`,
  `Control.SplitReleaseCanLoseTheRequester`, `Control.ContradictionIff`,
  `Control.SplitIntentsCanContradict`.
- A deployment name with a slash passes validation and can share a client cache
  key with another deployment: `Routing.LookupIsCurrentIff`,
  `Routing.ValidConfigCanMixClients`.
- A deployment name with a NUL can take another deployment's group key, and work is
  then filed under the wrong deployment: `Fanout.BuildShardedGroups`,
  `Fanout.GroupKeysMeetIff`, `Fanout.NulNamesAreMisfiled`.
- The storage-schema guard refuses DROP TABLE and DROP COLUMN but keeps renames, which
  take a table or column name away just as well: `StorageSchema.StatementPreservesIff`,
  `StorageSchema.NamesAreLostIff`, `StorageSchema.RenamesPassTheGuard`.
- A continued redrive forgets earlier successes and can select more than one long
  request: `Redrive.ChainAgainstOneRequest`, `Redrive.ChainCanReselect`.
- Normalizing a path twice can differ from normalizing it once:
  `SourcePolicy.NormalizeTwiceIff`, `SourcePolicy.NormalizeIsNotIdempotent`.
- The CREATE TABLE formatter drops a comma that ends a list of several columns, and
  the ALTER splitter drops the first letter of a clause keyword that follows its
  comma without a blank: `DdlFormat.OnlyWhiteSpaceChangesIff`,
  `DdlFormat.SplitAlterTable`.
- An ALTER TABLE statement whose table is not quoted is not split into its clauses
  when the first backtick followed by a blank stands in a later one, or inside
  parentheses: `AlterSplit.PlainNameSplitsIff`, `AlterSplit.PlainNameCanHideClauses`.

## Model

| member | source | states |
|---|---|---|
| `States.FoldingKeepsTerminality` | pkg/state/apply.go:279-325 | normalizing a child state before deriving keeps whether it is terminal |
| `Rollout.DeriveByCounting` | pkg/state/apply.go:87-141 | the counting loop computes the same state as the priority rules stated over the children |
| `Rollout.CountsDecide` | pkg/state/apply.go:87-141 | any counts that agree with the children pick the state the rules give |
| `Rollout.HasLaterNonTerminal` | pkg/state/apply.go:269-276 | found exactly when a later child is live |
| `Rollout.DeriveRolloutByScan` | pkg/state/apply.go:208-267 | the three-flag scan computes the policy verdict stated over all children |
| `Rollout.BaseFailedIff` | pkg/state/apply.go:87-141 | the base state is failed exactly when some child failed |
| `Rollout.FailureVerdictIsOnlyDelayed` | pkg/state/apply.go:208-267 | on_failure never changes the verdict of a failed child, only when it is reached |
| `Rollout.SettledChildrenSettleTheApply` | pkg/state/apply.go:87-141 | all children terminal makes the apply terminal |
| `Rollout.TerminalWhileLiveIff` | pkg/state/apply.go:208-267 | exactly when the apply reads terminal although a child is live |
| `Rollout.CompletedIffEveryChildCompleted` | pkg/state/apply.go:208-267 | completed exactly when every child completed |
| `Rollout.PausedIffHeld` | pkg/state/apply.go:208-267 | paused exactly when an unreleased failure holds live work and nothing failed hard |
| `Verdicts.EndedVerdicts` | pkg/state/apply.go:87-120 | when the apply reads failed, failed_retryable, cancelled, stopped, reverting, reverted or completed, by the child states that occur and those that do not |
| `Verdicts.LiveVerdicts` | pkg/state/apply.go:120-141 | the same for recovering, cutting_over, revert_window and running |
| `Verdicts.WaitingVerdicts` | pkg/state/apply.go:126-133 | waiting_for_cutover and waiting_for_deploy exactly when some child waits so and every other waits alike or completed |
| `Verdicts.PendingVerdict` | pkg/state/apply.go:87-141 | pending exactly when no child decides otherwise |
| `Verdicts.PoliciesOnlyMatterForFailures` | pkg/state/apply.go:208-222 | without a failed child the policies change nothing |
| `Verdicts.FailedVerdicts` | pkg/state/apply.go:208-267 | with one: failed, paused or running_degraded exactly by the two flags and what is behind |
| `Writes.RolloutVerdicts` | pkg/api/operator.go:1828-1866 | the same by the policies the rows captured and the release latch |
| `Writes.RefusedIff` | pkg/api/operator.go:1866-1879 | a projection is refused exactly without rows, or over an ended copy whose rows have not ended, unless it reopens a degraded rollout and may |
| `Writes.ProjectionWrites` | pkg/api/operator.go:1881-1940 | what is written and when, field by field: state, start, completion and error |
| `Writes.MessageOfTheFirst` | pkg/api/operator.go:1659-1680 | the error is that of the first failed operation with a message |
| `Writes.ReapplyAndExpiryWrite` | pkg/storage/mysqlstore/applies.go:1749-1955 | what a reapply and an expiry write onto the apply |
| `Writes.WinnerPublishes` | pkg/api/operator.go:1981-2047 | the winner of a terminal swap publishes once |
| `Writes.PublishedIff` | pkg/api/operator.go:1981-2047 | a summary is published exactly if it is owed and the apply still ended |
| `Projection.ApplyStore.UpdateDerivedState` | pkg/storage/mysqlstore/applies.go:1033-1079 | swaps exactly when the stored state is the expected one, keeps a recorded start, writes the completion time as passed |
| `Projection.Projector.FirstFailedOperationMessage` | pkg/api/operator.go:1659-1680 | the first failed operation with a message names the parent's error |
| `Projection.Projector.BuildChildren` | pkg/api/operator.go:1828-1866 | one child per row with the policy flags the release latch leaves |
| `Projection.Projector.PersistDerivedState` | pkg/api/operator.go:1866-1940 | the guard, the no-op case and the swap, with the outcome they report |
| `Projection.Projector.UpdateApplyStateFromOperations` | pkg/api/operator.go:1819-1969 | the whole projection is the value-level step, on the row and on the gauge |
| `Projection.StepBalance` | pkg/api/operator.go:1819-1969 | one step changes wins and expiries minus reopenings by the change in terminality |
| `Projection.TerminalBalance` | pkg/api/operator.go:1819-1969 | in every run with reapplies and expiries, any derivations: wins and expiries minus reopenings are the change in terminality |
| `Projection.OneWinnerPerEpisode` | pkg/api/operator.go:1927-1969 | between two winning projections the parent was reopened |
| `Projection.PublicationsAreWon` | pkg/api/operator.go:1981-2047 | every summary published was won by a swap |
| `Projection.AtMostOneSummaryPerEpisode` | pkg/api/operator.go:1981-2047 | summaries and expiries together never exceed reopenings by more than one |
| `Projection.GaugeDrift` | pkg/api/operator.go:1941-1969 | for multi-operation applies the gauge nets to minus the change in terminality, one more per expiry and one less per reapply |
| `Projection.GaugeTracksTerminality` | pkg/api/operator.go:1941-1969 | the projection's gauge ends opposite to terminality exactly when a run has as many expiries as reapplies |
| `Projection.TerminalIsLeftOnlyByReopening` | pkg/api/operator.go:1746-1758 | a terminal parent is left only as failed, to running_degraded by a projection allowed to reopen or to failed_retryable by a reapply |
| `Projection.StepKeepsTimes` | pkg/api/operator.go:1881-1913 | one step of any driver keeps the timestamp invariant, stale copies included |
| `Projection.TimestampsInEveryRun` | pkg/api/operator.go:1881-1913 | a start time whenever not pending, a completion time exactly while terminal and not stopped |
| `Projection.StartIsNeverRewound` | pkg/api/operator.go:1881-1884 | a recorded start never changes later in the run |
| `Projection.ReleasedProjectionNeverPauses` | pkg/api/operator.go:1828-1859 | with the latch read set no child pauses and the apply does not read paused |
| `Projection.SettledRowsDeriveAVerdict` | pkg/api/operator.go:1860-1866 | settled rows derive a terminal verdict: failed iff some failed, completed iff all completed |
| `Projection.SettledRowsSettleTheParent` | pkg/api/operator.go:1819-1969 | a current copy is never refused and settles the parent once every row is terminal |
| `Projection.FreshProjectionIsCurrent` | pkg/api/operator.go:1866-1940 | over a current copy the row ends at the derived state unless the guard refuses |
| `Projection.CopiesAgreeInEveryRun` | pkg/api/operator.go:1866-1940 | every copy a driver holds, however stale, has times that agree with its own state |
| `Projection.CompletionTimeChangesIff` | pkg/api/operator.go:1896-1911 | a step puts another completion time on a finished apply exactly when a copy of the same state, read in another episode, derives another verdict |
| `Projection.CompletionTimeChangesInARunIff` | pkg/api/operator.go:1896-1911 | the same at every step of every run from a fresh apply |
| `Projection.CompletionTimeCanRewind` | pkg/api/operator.go:1896-1911 | a run of two failed episodes after which a late writer moves the completion time back from the second to the first |
| `Claims.ProjectedIsTheProjection` | pkg/api/operator.go:1866-1940 | the parent write of the claims machine is the projection of `Projection`, for any row, copy and operations |
| `Gates.CopyClaimInARunIff` | pkg/storage/mysqlstore/apply_operations.go:646-651 | at every step of every run a work row is claimed for its copy exactly if every row of an earlier deployment has reached what its captured policies ask: under barrier parked, cutting over, in its revert window or completed, else completed, or failed and passed |
| `Gates.FinalizerClaimIff` | pkg/storage/mysqlstore/apply_operations.go:838-850 | a finalizer is claimed exactly when its namespace's work completed |
| `Gates.CutoverClaimIff` | pkg/storage/mysqlstore/apply_operations.go:1180-1215 | a parked row is claimed for cutover exactly behind completed or passed rows |
| `Gates.OtherClaimsIff` | pkg/storage/mysqlstore/apply_operations.go:860-905 | which rows are resumed, claimed again and retried |
| `Gates.ClaimsWrite` | pkg/storage/mysqlstore/apply_operations.go:925-1010 | what each claim writes, and that no other row moves |
| `Gates.ResultsWrite` | pkg/api/operator.go:1682-1735 | which results of a drive are recorded |
| `Gates.MirrorWrites` | pkg/api/operator.go:1021-1047 | a row claimed under a terminal parent gets its state |
| `Gates.ReapplyWrites` | pkg/storage/mysqlstore/applies.go:1846-1970 | exactly when an apply can be reapplied, and what that writes |
| `Gates.ExpiryAndStopWrite` | pkg/storage/mysqlstore/applies.go:1749-1841 | what an expiry and a stop write |
| `Gates.OneDeploymentCopies` | pkg/storage/mysqlstore/apply_operations.go:591-620 | in every run whatsoever a rolling or barrier rollout runs the copies of one deployment at a time, behind deployments that have begun |
| `Claims.SettledRowMoves` | pkg/storage/mysqlstore/applies.go:1846-1970 | a completed or failed row moves only in a reapply, if it failed, or by the driver it was settled under |
| `Claims.LeavingFailedIsReapplyOrLateWrite` | pkg/storage/mysqlstore/applies.go:1749-1970 | in every run failed is left only in those two ways |
| `Claims.CutoverFollowsSettledRows` | pkg/storage/mysqlstore/apply_operations.go:1121-1270 | a row is claimable for cutover only behind completed or failed rows |
| `Claims.CutoversInvertOnlyAfterFailure` | pkg/storage/mysqlstore/apply_operations.go:1121-1270 | in every run cutover claims follow rollout order, unless the earlier row was reapplied or rewritten by a driver it was expired under, between the two claims |
| `Claims.ReapplyInvertsCutovers` | pkg/storage/mysqlstore/applies.go:1846-1970 | and it does on every board where a row may cut over past a failed one, the rows ahead of that one completed and the others completed or failed |
| `Claims.SwapsOverlapOnlyAfterFailure` | pkg/storage/mysqlstore/apply_operations.go:1121-1270 | two rows of a rollout without manual deferral cut over together only if the earlier stopped being failed during the run |
| `Claims.OneSwapAtATime` | pkg/storage/mysqlstore/apply_operations.go:1121-1270 | without reapply and expiry at most one row is cutting over, in every run |
| `Drives.DriveBeginsIff` | pkg/api/operator.go:590-612 | a row starts being driven exactly when its claimer loads a live parent |
| `Drives.ParentTurnsLiveIff` | pkg/api/operator.go:1866-1879 | a terminal parent turns live exactly when it failed and is reapplied, or reopened by a projection allowed to |
| `Drives.NothingIsDrivenUnderATerminalParent` | pkg/api/operator.go:590-612 | until then nothing is driven and the parent stays terminal |
| `Drives.DrivenOnlyAfterFailure` | pkg/api/operator.go:590-612 | in every interleaving from an undriven terminal apply, a driven row means the parent failed and was reapplied or reopened |
| `Drives.StoppedApplyIsNotResumed` | pkg/api/operator.go:1021-1047 | unless it is stored as failed on the way, no run drives a row of a stopped apply or records a drive's result |
| `Drives.HaltedApplyIsNotResumed` | pkg/api/operator.go:590-612 | under halt no terminal apply is driven again without a reapply |
| `Drives.OneDeploymentIsDriven` | pkg/storage/mysqlstore/apply_operations.go:688-1085 | rollout order means that the driven work belongs to one deployment |
| `Drives.UndoneIff` | pkg/storage/mysqlstore/applies.go:1749-1970 | a done row stops being done exactly by a reapply if it failed, a late mirror of an unsettled state, or its claimer loading a live parent |
| `Drives.StepKeepsOrderIff` | pkg/storage/mysqlstore/apply_operations.go:688-1085 | a step keeps rollout order exactly when it neither begins a drive before every earlier deployment completed or failed nor, by the board before it, undoes such a row ahead of a drive that goes on |
| `Drives.RolloutOrderIff` | pkg/storage/mysqlstore/apply_operations.go:688-1085 | a rollout drives one deployment at a time throughout a run exactly when no step does either |
| `Drives.GateKeepsRollingOrder` | pkg/storage/mysqlstore/apply_operations.go:591-620 | the pending gate keeps a rolling rollout to one deployment in flight in every run without resumes of stopped rows, reapply and expiry |
| `Drives.ReapplyDrivesTwoDeployments` | pkg/storage/mysqlstore/applies.go:1846-1970 | a reapply lets any two failed deployments of any reappliable rollout be driven at once |
| `Progress.PausedHoldsLaterDeployments` | pkg/storage/mysqlstore/apply_operations.go:591-620 | an apply that reads paused has a failed row that keeps later deployments from copying and cutting over; a resume passes it exactly for a stopped row with a start pending |
| `Progress.ReleaseLiftsTheHold` | pkg/storage/mysqlstore/apply_operations.go:591-620 | after a release no failed row blocks and the apply does not read paused |
| `Progress.FailuresAheadAreExempt` | pkg/storage/mysqlstore/apply_operations.go:591-620 | while the apply reads live and unpaused, failures ahead of live work are skipped by the gates |
| `Progress.ReadyWorkIsClaimable` | pkg/storage/mysqlstore/apply_operations.go:688-800 | pending work of the first unsettled row's deployment, or copying in parallel, passes the gate |
| `Progress.LiveRolloutCanMoveIff` | pkg/storage/mysqlstore/apply_operations.go:688-1270 | exactly when some row of a quiet live rollout with any policies, shards and finalizers can be claimed, for whatever reason |
| `Progress.ClaimedRowIsDriven` | pkg/api/operator.go:590-612 | under a live parent such a claim is driven |
| `Progress.StuckOnlyBehindFailedWork` | pkg/storage/mysqlstore/apply_operations.go:688-1270 | it is stuck only if its first unsettled row was halted and is not to be resumed, or is a finalizer that waits on failed work |
| `Progress.LiveRolloutCanMove` | pkg/storage/mysqlstore/apply_operations.go:688-1270 | so a rollout is never stuck in which no finalizer waits on failed work and no row was halted except to be resumed |
| `Progress.StopSettlesTheRollout` | pkg/storage/mysqlstore/apply_operations.go:1348-1420 | stopping the pending rows makes an undriven apply terminal |
| `Progress.FinalizerStaysBehindIff` | pkg/storage/mysqlstore/apply_operations.go:688-800 | a step leaves a finalizer behind failed work exactly when it is neither a stop nor a reapply |
| `Progress.StrandedNow` | pkg/storage/mysqlstore/apply_operations.go:688-800 | such a finalizer holds the apply at running_degraded and later deployments back |
| `Progress.StrandedUntilStoppedOrReapplied` | pkg/storage/mysqlstore/apply_operations.go:688-800 | it stays behind throughout a run exactly when the run neither stops nor reapplies |
| `Progress.FinalizerBehindFailureStrands` | pkg/storage/mysqlstore/apply_operations.go:688-800 | and until then the apply reads running_degraded and later deployments wait |
| `Control.ControlPlane.CountStartTasks` | pkg/api/control_handlers.go:1500-1509 | stopped tasks are started, terminal ones skipped |
| `Control.ControlPlane.ExecuteStart` | pkg/api/control_handlers.go:1317-1398 | the whole start request as one step, with two progress answers; taken exactly in the states and with the work that allow it; a queued start leaves no stop or cancel pending |
| `Control.ControlPlane.ExecuteRelease` | pkg/api/control_handlers.go:1784-1848 | the whole release request as one step; taken exactly by a paused apply with a pausing operation and no stop or cancel pending; a set latch is not rewritten |
| `Control.ControlPlane.CountStopTasks` | pkg/api/control_handlers.go:1150-1161 | live tasks are stopped, terminal ones skipped |
| `Control.ControlPlane.ExecuteStop` | pkg/api/control_handlers.go:1117-1148 | the whole stop request as one step; taken exactly by an apply that has not ended and has tasks, or where one is pending; a fresh one records the caller and the live and ended tasks |
| `Control.ControlPlane.ExecuteCancel` | pkg/api/control_handlers.go:956-1015 | the same for cancel, which a stopped apply takes too |
| `Control.ControlPlane.ExecuteExclusive` | pkg/api/control_handlers.go:2019-2108 | revert and skip-revert as one step each; taken exactly in the revert window while the other is not pending; a fresh one stays pending, completes or fails as the engine answers |
| `Control.EveryTaskIsCounted` | pkg/api/control_handlers.go:1150-1161 | stopped and skipped counts add up to the tasks |
| `Control.StopCountsAre` | pkg/api/control_handlers.go:1150-1161 | a stop counts completed, failed, reverted and cancelled tasks as skipped and all others as affected |
| `Control.StartCountsAre` | pkg/api/control_handlers.go:1500-1509 | a start counts stopped tasks as affected and the ended ones as skipped |
| `Control.StopAnswers` | pkg/api/control_handlers.go:1117-1148 | when a stop is taken, and all it writes |
| `Control.CancelAnswers` | pkg/api/control_handlers.go:956-1015 | when a cancel is taken, and all it writes |
| `Control.ReleaseAnswers` | pkg/api/control_handlers.go:1784-1848 | when a release is taken, and all it writes |
| `Control.ExclusiveAnswers` | pkg/api/control_handlers.go:2019-2108 | when a revert or skip-revert is taken, and all it writes |
| `Control.StartTakenIff` | pkg/api/control_handlers.go:1317-1398 | exactly when a start is taken, over both progress answers |
| `Control.QueuedStartRecords` | pkg/api/control_handlers.go:1492-1572 | the counts a queued start records and the state it leaves |
| `Control.ChecksComplete` | pkg/api/control_handlers.go:893-922 | a check completes a stop exactly when the apply ended, a cancel exactly when it was cancelled |
| `Control.ResolvingStopTouchesOnlyStop` | pkg/api/control_handlers.go:1400-1486 | completing a stop leaves every other request alone and needs a resolved apply |
| `Control.QueueTouchesOnlyStart` | pkg/api/control_handlers.go:1340-1366 | the queueing step changes only the start row, and only for a fresh start |
| `Control.FreshStartIsClaimable` | pkg/api/control_handlers.go:1317-1398 | a queued start leaves no stop or cancel pending, the apply stopped or waiting_for_deploy, and the caller's row pending |
| `Control.OnlyQueuedStartsWriteTheRow` | pkg/api/control_handlers.go:1610-1667 | any other start records nothing and repeats the stored counts |
| `Control.PendingStartIsKept` | pkg/api/control_handlers.go:1317-1398 | no request but its owner's resolution touches a pending start, in every run |
| `Control.RepeatedStartsAgree` | pkg/api/control_handlers.go:1359-1366 | later starts return the first one's counts whatever tasks and remote say by then |
| `Control.StartStampsStoppedIff` | pkg/api/control_handlers.go:1455-1475 | exactly when a start leaves a completion time on a stopped apply |
| `Control.StopIsResolvedOnlyWhenStopped` | pkg/api/control_handlers.go:893-922 | a step that completes a pending stop leaves a resolved apply |
| `Control.StopsAreResolvedByTheApply` | pkg/api/operator.go:956-983 | in every run a pending stop is completed only at a step after which the apply is stopped, cancelled or terminal |
| `Control.StepKeepsIntentsExclusive` | pkg/api/control_handlers.go:2147-2239 | no whole request leaves revert and skip-revert both pending |
| `Control.RevertAndSkipRevertNeverBothPending` | pkg/api/control_handlers.go:2019-2108 | nor does any sequence of whole requests and operator steps |
| `Control.ContradictionIff` | pkg/api/control_handlers.go:2042-2062 | with checks and writes interleaved, a step makes revert and skip-revert both pending exactly when it records for a request whose check is out of date |
| `Control.ContradictionNeedsAStaleRecord` | pkg/api/control_handlers.go:2042-2062 | in every run both are pending only after such a step |
| `Control.SplitIntentsCanContradict` | pkg/api/control_handlers.go:2042-2062 | an interleaving of two requests that reaches it |
| `Control.LatchHoldsUntilItFails` | pkg/api/control_handlers.go:1795-1814 | a latched release stays latched in every interleaving of split requests until it fails |
| `Control.SplitReleaseRewritesIff` | pkg/api/control_handlers.go:1804-1814 | exactly when a split request rewrites a latched row |
| `Control.SplitReleaseCanLoseTheRequester` | pkg/api/control_handlers.go:1804-1814 | such an interleaving replaces the requester |
| `Control.StepKeepsLatch` | pkg/api/control_handlers.go:1784-1848 | a whole request keeps the latch and its requester |
| `Control.ReleaseLatchIsOneWay` | pkg/api/control_handlers.go:1784-1848 | in every run the latch and its requester stay, and no projection that reads it feeds a pausing child |
| `Routing.ValidateDeploymentOrder` | pkg/api/config.go:1562-1586 | accepted exactly when the order lists every deployment once |
| `Routing.ValidateEnvironment` | pkg/api/config.go:959-1046 | accepted exactly when the environment is one well-formed route with valid policies |
| `Routing.ValidateDeployments` | pkg/api/config.go:1018-1034 | every deployment has a name, a target and an endpoint |
| `Routing.ValidateDatabase` | pkg/api/config.go:944-1048 | accepted exactly when the type is known and every environment is valid |
| `Routing.ValidateNoRouteCollision` | pkg/api/config.go:1254-1271 | accepted exactly when no local environment shares its name with a remote route |
| `Routing.Validate` | pkg/api/config.go:942-1055 | accepts exactly the valid configurations |
| `Routes.EnvironmentIff` | pkg/api/config.go:959-1046 | an environment is accepted exactly with one of three whole routes: a DSN, a scalar deployment, or a map with known policies |
| `Routes.ConfigIff` | pkg/api/config.go:942-1055 | a configuration is accepted exactly if every database has a known kind, routes, and no local name that is reachable as a deployment |
| `Routes.ServedBy` | pkg/api/service.go:338-410 | which client serves a deployment, by the configured fields |
| `Routing.OrderedKeys` | pkg/api/config.go:1539-1560 | the configured order, or else the sorted keys, each once |
| `Sorting.AtMostIff` | pkg/api/config.go:1539-1560 | sorted means lexicographically, by code point |
| `Routing.ResolveDeployments` | pkg/api/config.go:1623-1645 | succeeds exactly for a well-formed map and lists every deployment once in rollout order |
| `Routing.ResolveDatabaseTargets` | pkg/api/config.go:1599-1658 | a valid configuration resolves every configured environment to its deployments in rollout order |
| `Routing.TargetsReachTheirClients` | pkg/api/service.go:338-410 | every resolved target selects its own local client or its own endpoint |
| `Routing.RemoteDeploymentIsRemote` | pkg/api/service.go:81-101 | a configured endpoint is never shadowed by a local database |
| `Routing.ClientCache.TernClient` | pkg/api/service.go:338-410 | cached, local, remote, default or none, and what is cached |
| `Routing.KeysDoNotMeet` | pkg/api/service.go:342 | the cache key determines a slash-free deployment and the environment |
| `Routing.CacheAgreesWithConfig` | pkg/api/service.go:338-410 | after any slash-free lookups each cached client is the uncached choice |
| `Routing.EveryLookupIsCurrent` | pkg/api/service.go:338-410 | so every answer is the uncached choice, or none when creation failed |
| `Routing.CachedIffCreated` | pkg/api/service.go:338-410 | after any lookups a key is cached exactly if some call created a client under it, and holds what the first such call selected |
| `Routing.LookupIsCurrentIff` | pkg/api/service.go:338-410 | the next lookup gets the uncached choice exactly when no earlier call created a client under its key or the first that did selected the same |
| `Routing.ValidConfigCanMixClients` | pkg/api/service.go:338-410 | a valid configuration whose second lookup answers with the first deployment's endpoint |
| `Fanout.GroupBuilder.AddShards` | pkg/api/plan_handlers.go:1125-1154 | a namespace's shards, in order |
| `Fanout.GroupBuilder.AddFinalizers` | pkg/api/plan_handlers.go:1162-1175 | one task-less finalizer per namespace |
| `Fanout.RefusedIff` | pkg/api/plan_handlers.go:1129-1152 | a shard is refused exactly for a blank field, a foreign namespace, a slash or a key over 255 |
| `Fanout.ByNameIsSorted` | pkg/api/plan_handlers.go:1217-1232 | a namespace's shards are walked by name |
| `Fanout.FanOutIff` | pkg/api/plan_handlers.go:1083-1102 | exactly when a plan is fanned out |
| `Fanout.KeyShapes` | pkg/api/plan_handlers.go:1194-1236 | shard keys have two delimiters, finalizer keys one |
| `Fanout.GroupKeyIsInjective` | pkg/api/plan_handlers.go:1143 | without a NUL in the deployment the group key determines deployment and operation key |
| `Fanout.ShardKeyIsInjective` | pkg/storage/types.go:293-295 | the operation key determines namespace, shard and table |
| `Fanout.PutKeeps` | pkg/api/plan_handlers.go:1143-1152 | adding a task keeps the index right, adds no finalizer and, unless group keys meet, exactly one unit of work |
| `Fanout.PutTargetsKeep` | pkg/api/plan_handlers.go:1122-1176 | the whole walk adds targets times finalizers and, unless group keys meet, targets times changes |
| `Fanout.ChangingShardsByNamespace` | pkg/api/plan_handlers.go:1217-1232 | exactly the changing shards of each namespace, by name |
| `Fanout.GroupingConserves` | pkg/api/plan_handlers.go:1217-1232 | grouping and sorting lose and invent no change |
| `Fanout.KeysAreUnique` | pkg/api/plan_handlers.go:1143-1175 | every deployment and operation key names one group |
| `Fanout.AllFinalizersAreDistinct` | pkg/api/plan_handlers.go:1162-1175 | no finalizer appears twice |
| `Fanout.BuildShardedGroups` | pkg/api/plan_handlers.go:1104-1178 | succeeds exactly for acceptable plans; groups come target by target with unique keys, and work equals targets times changes, with work groups non-empty and finalizers task-less, exactly when no two deployments' group keys meet |
| `Fanout.BuiltIsFannedOut` | pkg/api/plan_handlers.go:1104-1178 | the same of the value the builder computes |
| `Fanout.GroupKeysMeetIff` | pkg/api/plan_handlers.go:1143 | two group keys meet exactly when one deployment continues the other past a NUL and the operation key makes up for it |
| `Fanout.NulNamesCanMeet` | pkg/api/plan_handlers.go:1143 | a family of deployments and shards whose group keys meet |
| `Fanout.NulNamesAreMisfiled` | pkg/api/plan_handlers.go:1104-1178 | such a family of distinct deployments and acceptable plans, whose built groups do not hold each deployment's own work |
| `Fanout.NulFreeNamesAreApart` | pkg/api/plan_handlers.go:1143 | deployments without a NUL never meet |
| `Fanout.TargetsInOrder` | pkg/api/plan_handlers.go:1122-1176 | the groups come target by target, a target's finalizers after its work |
| `Fanout.EveryNamespaceIsWorkedOn` | pkg/api/plan_handlers.go:1083-1102 | every namespace with a table change gets a work group on every target |
| `Redrive.ScanPage` | pkg/api/webhook_ops_handlers.go:523-563 | a page does so for all its deliveries |
| `Redrive.Crawl` | pkg/api/webhook_ops_handlers.go:502-586 | visits the pages and ends as stated over the history, and selects and skips exactly the deliveries that are to be, in order |
| `Redrive.ReportMeans` | pkg/api/webhook_ops_handlers.go:523-563 | selected are exactly the deliveries outside 200..299, in the window, of the six event and action pairs, that pass the filter and have no accepted delivery of their GUID listed before; skipped are those that cannot be filtered |
| `Redrive.CrawlFollowsTheListing` | pkg/api/webhook_ops_handlers.go:502-586 | the pages are those the listing's cursors lead to |
| `Redrive.CrawlEndsBecause` | pkg/api/webhook_ops_handlers.go:564-586 | the crawl ends exactly on a failed, empty, passed or last page or a spent budget, and reports which |
| `Redrive.SelectedIffPicked` | pkg/api/webhook_ops_handlers.go:533-562 | selected exactly when failed, in the window, eligible, passing the filter and without an earlier listed success |
| `Redrive.ChosenSplits` | pkg/api/webhook_ops_handlers.go:506-512 | a longer listing selects as its parts do, less what succeeded before |
| `Redrive.LateDropsExactlyRepeats` | pkg/api/webhook_ops_handlers.go:541-546 | what earlier successes remove is exactly the repeated deliveries |
| `Redrive.ContinuesAtARealCursor` | pkg/api/webhook_ops_handlers.go:569-586 | a continuation cursor is empty only if no page was asked for from the start |
| `Redrive.ExitIsOneOfThree` | pkg/api/webhook_ops_handlers.go:564-586 | exactly one coverage fact is reported, except in that case |
| `Redrive.ChainVisitsTheSamePages` | pkg/api/webhook_ops_handlers.go:502-586 | continued requests visit the pages of one long request, in order |
| `Redrive.ChainSelectsASuperset` | pkg/api/webhook_ops_handlers.go:506-512 | and select a superset, equal exactly when no request repeats an earlier success |
| `Redrive.ChainAgainstOneRequest` | pkg/api/webhook_ops_handlers.go:502-586 | both together, for any cut of the page budget |
| `Redrive.ChainCanReselect` | pkg/api/webhook_ops_handlers.go:502-586 | over any two-page history with a success and its failed original, two one-page requests select the original and one two-page request does not |
| `Redrive.RepeatedRedriveSelectsNothingOld` | pkg/api/webhook_ops_handlers.go:506-512 | repeating a redrive after its deliveries succeeded selects none of them |
| `SourcePolicy.StringPrefixIsSegmentPrefix` | pkg/api/source_policy.go:248-255 | the string prefix test is the segment prefix test |
| `SourcePolicy.NormalizedIsPlain` | pkg/api/source_policy.go:260-277 | every normalized path is the root or joins back from its plain segments |
| `SourcePolicy.SurvivingIsTheStack` | pkg/api/source_policy.go:272 | cleaning keeps exactly the names no later ".." takes away, read from the right |
| `SourcePolicy.NormalizeKeepsSurvivors` | pkg/api/source_policy.go:260-277 | an accepted path has the surviving segments of the given one |
| `SourcePolicy.NormalizeTwiceIff` | pkg/api/source_policy.go:260-277 | normalizing an accepted path again changes nothing exactly when the first surviving segment of the given path does not start, and the last does not end, in white space |
| `SourcePolicy.NormalizeIsIdempotent` | pkg/api/source_policy.go:260-277 | normalizing again changes nothing if no segment of the given path starts or ends in white space |
| `SourcePolicy.NormalizeIsNotIdempotent` | pkg/api/source_policy.go:260-277 | the family of paths where it does |
| `SourcePolicy.AcceptedIff` | pkg/api/source_policy.go:260-277 | a path is accepted exactly if it is not blank, not rooted and never leads above the root |
| `SourcePolicy.DirAllowedIff` | pkg/api/source_policy.go:232-258 | a path is allowed exactly when an entry covers its segments and no earlier entry is malformed |
| `SourcePolicy.AuthorizedIff` | pkg/api/source_policy.go:53-116 | a plan is authorized exactly for an unrestricted database, or from a pull request of a listed repository with a listed path |
| `SourcePolicy.HintedIff` | pkg/api/config.go:836-852 | the hinted directories are exactly the accepted entries below the root |
| `SourcePolicy.AddDirs` | pkg/api/config.go:836-852 | each hintable entry's directory once, and whether all were hintable |
| `SourcePolicy.HintsForDatabase` | pkg/api/config.go:794-822 | the hints of one database, sorted, and whether they are exhaustive |
| `SourcePolicy.HintsForRepo` | pkg/api/config.go:824-857 | the same over all databases that accept the repository, in any map order |
| `SourcePolicy.ExhaustiveHintsCover` | pkg/api/source_policy.go:53-116 | where hints are exhaustive every authorized path lies at or below a hinted directory |
| `StorageSchema.HasDropColumn` | pkg/api/ensure_schema.go:358-378 | found exactly when some clause drops a column |
| `StorageSchema.PartitionDestructiveChanges` | pkg/api/ensure_schema.go:314-336 | the flattened plan splits in order into what can give up data, refused, and all else, allowed, unless a statement cannot be classified |
| `StorageSchema.PartitionIsExact` | pkg/api/ensure_schema.go:314-336 | the two parts are disjoint and exhaustive |
| `StorageSchema.RefusedIffDataIsLost` | pkg/api/ensure_schema.go:341-378 | a statement is refused exactly if it can give up the data of some column |
| `StorageSchema.DataFollowsTheSchema` | pkg/api/ensure_schema.go:341-378 | data that is not given up is under its new name in the schema |
| `StorageSchema.StatementPreservesIff` | pkg/api/ensure_schema.go:341-378 | exactly when a statement of any kind loses no table or column name in the schema it finds |
| `StorageSchema.SafeStatementPreserves` | pkg/api/ensure_schema.go:341-378 | what is not refused loses no table and no column unless it renames |
| `StorageSchema.StepIsOrderly` | pkg/api/ensure_schema.go:156-213 | a step keeps the lock discipline and leaves nothing destructive to execute without the opt-in |
| `StorageSchema.OnePodPastTheLock` | pkg/api/ensure_schema.go:156-177 | in every run at most one pod is past the lock |
| `StorageSchema.NothingIsDestroyed` | pkg/api/ensure_schema.go:156-231 | without the opt-in no run of pods, crashes and plans without renames removes a table or column outside Spirit's |
| `StorageSchema.NamesAreLostIff` | pkg/api/ensure_schema.go:156-213 | in every run, with any opt-ins and plans, a step loses a name exactly when the lock holder runs a statement that does not keep it, which is a rename unless its pod opted in |
| `StorageSchema.RenamesPassTheGuard` | pkg/api/ensure_schema.go:341-356 | a whole startup without the opt-in runs any statement the guard keeps, renames included |
| `StorageSchema.StartupCarriesOut` | pkg/api/ensure_schema.go:156-231 | an undisturbed startup carries out the whole plan in order but for what is refused, and one that gives up nothing whole |
| `StorageSchema.AdditionsLoseNothing` | pkg/api/ensure_schema.go:341-356 | creating tables and adding columns give up nothing |
| `StorageSchema.StaleTablesAreDropped` | pkg/api/ensure_schema.go:118-177 | without changes a pod stops, unless Spirit's tables were left behind, which it drops under the lock |
| `StorageSchema.SpiritNames` | pkg/ddl/differ.go:119-129 | which names are Spirit's |
| `StorageSchema.NothingOutsideSpiritIsDestroyed` | pkg/ddl/differ.go:119-129 | the same for the names Spirit uses |
| `DdlFormat.FindMatchingParen` | pkg/ddl/format.go:221-237 | the first position where the parentheses balance, or none |
| `DdlFormat.CutsAreTheSeparators` | pkg/ddl/format.go:239-267 | the cuts are exactly the commas outside parentheses |
| `DdlFormat.SplitByComma` | pkg/ddl/format.go:239-267 | the pieces between those commas |
| `DdlFormat.ColumnsRejoin` | pkg/ddl/format.go:239-267 | the pieces glued with commas are the text, up to one trailing separator |
| `DdlFormat.Locate` | pkg/ddl/format.go:119-130 | the first parenthesis and its match, or no column list |
| `DdlFormat.WriteLines` | pkg/ddl/format.go:150-160 | one indented line per column, commas between |
| `DdlFormat.FormatCreateTable` | pkg/ddl/format.go:118-171 | the layout, and that only white space changes outside the options, up to a dropped trailing comma |
| `DdlFormat.OnlyWhiteSpaceChangesIff` | pkg/ddl/format.go:118-171 | without options only white space changes, except exactly when a list of several columns ends in a comma |
| `DdlFormat.ScanClauses` | pkg/ddl/format.go:285-312 | the clause scan with its skip after a cut |
| `DdlFormat.SplitAlterClauses` | pkg/ddl/format.go:269-322 | the table part joined to the first clause |
| `DdlFormat.TableNameEnd` | pkg/ddl/format.go:325-343 | a position within the statement: past a quoted or unquoted table name, or its end |
| `DdlFormat.SplitAlterTable` | pkg/ddl/format.go:269-322 | the clauses are those of the scan and rejoin to the statement up to white space exactly when every cut comma is followed by a blank |
| `DdlFormat.ClausesKeepTheText` | pkg/ddl/format.go:285-312 | from any point of the scan, text is kept exactly when cut commas are followed by a blank |
| `DdlFormat.ClausesRejoinIff` | pkg/ddl/format.go:269-322 | the same for any keyword set and any table part |
| `AlterSplit.SplitsBack` | pkg/ddl/format.go:285-312 | from any point of the scan printed clauses are split back |
| `AlterSplit.ClausesBeginAt` | pkg/ddl/format.go:325-343 | behind a quoted name the clauses begin, and behind a plain one without a later backtick and blank |
| `AlterSplit.SplitUndoesPrint` | pkg/ddl/format.go:269-322 | splitting a printed statement gives its clauses back, for any clauses that begin with a keyword in either case and hold commas in parentheses only |
| `AlterSplit.PlainNameSplitsIff` | pkg/ddl/format.go:325-343 | with a plain name and a backtick followed by a blank among several clauses, they are split exactly if the first of those is in the first clause and outside its parentheses |
| `AlterSplit.PlainNameCanHideClauses` | pkg/ddl/format.go:325-343 | a family of statements on plain names that are not split |
| `Xfcc.SplitXfcc` | pkg/auth/forward_auth.go:299-321 | tokens between separators outside quotes |
| `Xfcc.ParseUris` | pkg/auth/forward_auth.go:276-294 | the non-empty URI values of the tokens |
| `Xfcc.TokensOfPrint` | pkg/auth/forward_auth.go:299-321 | splitting a printed header gives the printed pairs back |
| `Xfcc.UriOfItem` | pkg/auth/forward_auth.go:281-291 | a printed pair reads back as its value, if its key is uri in either case |
| `Xfcc.ParseUndoesPrint` | pkg/auth/forward_auth.go:276-321 | parsing undoes printing for any pairs, quoted or not, and separators |
| `Rollback.CompletedAfterIsAStrictWeakOrder` | pkg/api/control_handlers.go:211-222 | the comparison is a strict weak order over optional times |
| `Rollback.LatestCompletedTask` | pkg/api/control_handlers.go:190-205 | an in-scope task no other is after, and the first listed of the tied ones |
| `Rollback.LatestByTheClock` | pkg/api/control_handlers.go:190-222 | the latest task has the greatest completion time, or without any the greatest creation time |
| `Rollback.ValidateSource` | pkg/api/control_handlers.go:95-157 | accepted exactly when in scope and owner of the latest task from its own plan |
| `Rollback.TiesGoToTheFirstListed` | pkg/api/control_handlers.go:190-222 | the latest task is the first listed of those that nothing in scope is after |
| `Heartbeat.Heartbeats` | pkg/api/operator.go:1503-1531 | the loop ends at the first tick that must end it |
| `Heartbeat.InsideTheWindow` | pkg/api/operator.go:1541-1562 | a surviving drive was inside the staleness window at its last tick |
| `Heartbeat.TransientFailuresStopPromptly` | pkg/api/operator.go:1503-1562 | transient failures stop a drive no earlier than a minute after its last success and less than ten seconds later |
| `Heartbeat.SurvivorsAreFresh` | pkg/api/operator.go:1503-1562 | between ticks a drive's last success is younger than the window plus one interval |

## Left out

- HTTP decoding and encoding, logging, metrics and tracing: plumbing. The active-apply gauge is kept as a counter of the projection only.
- Lease tokens, row locks and retries of the storage layer: a claim here picks any row its gate admits, a driver may write late or abandon its row at any step, and a write that loses its lease is a step that does nothing.
- Clocks in the claim queries (staleness, retry delay and expiry age): a claim, a retry or an expiry may happen whenever its states allow it, so every result over runs covers every timing.
- The legacy mode that claims whole applies (`operator_claim_operations: false`) and the drive of applies with one operation: `Claims` is the default mode for applies with several operations.
- The manual cutover of a deferred rollout: `Claims.OneSwapAtATime` and `Claims.SwapsOverlapOnlyAfterFailure` are about rollouts whose cutovers the operator claims.
- `Progress` takes one on_failure policy per apply, and rows in the order `Fanout.TargetsInOrder` proves: a deployment's rows together, its finalizers last.
- Stopped, cancelled and failed written onto the parent by handlers, stop reconciliation and drives are steps of `Claims`; the runs of `Projection` have projections, reapplies and expiries only, so its counts and times are of those.
- The active-apply gauge is the account the projection keeps; what the resume path of whole applies adds when it claims a retry is not part of it.
- Upper-case and proto spellings of states: `States` has one constructor per canonical state.
- Requests the apply's owner resolves itself are one step (`Control.Event.OwnerResolves`) with no condition, because the drive that does it is not modelled.
- Control.ControlPlane.ExecuteStop: ends where the request is recorded; the immediate engine attempt is the separate step that completes a resolved stop.
- Control.ControlPlane.ExecuteCancel: likewise.
- Routing.ValidateEnvironment: `dsn_from` contents and the revert-window bound are field checks that would add only easy members.
- Routing.ValidateDatabase: so are the source-policy entries and actors of a database.
- Routing.Validate: so are the storage, endpoint-table, GitHub App, authorization, support-channel and DSN checks.
- Registering Tern clients by hand, and closing them: only lookups fill the cache here.
- The unsharded branch of building operation groups: one group per target with all changes.
- Fanout.BuildShardedGroups: deployments are distinct, as keys of the configured map are; key length is counted in code points, and shards with equal names keep plan order where Go's sort leaves it open.
- Redelivering the selected webhooks, and the oldest delivery reported: one simple loop.
- Symbolic case folding in the redrive's repository filter is an arbitrary function; the CREATE TABLE option formatter is too, because it is a regular expression.
- The parser behind storage-schema statements: a statement is given as classified; DROP TABLE, ALTER with dropped or renamed columns or a new table name, and RENAME TABLE are the ones that take names away, and what a statement does to the data under a name is not modelled.
- StorageSchema.NothingIsDestroyed: not promised for plans with renames, of which it is false; `StorageSchema.NamesAreLostIff` says exactly when a name is lost then.
- StorageSchema.NothingOutsideSpiritIsDestroyed: likewise.
- A pod that loses the advisory lock's connection without crashing.
- TiDB and Spirit parsing, lower-casing of types, and canonicalization of DDL. The splitters ignore quotes, as the code does, so white space inside a literal may change.
- Keyword folding in the ALTER splitter is ASCII only.
- OIDC, secrets, GitHub clients, plan rollups and response builders.
