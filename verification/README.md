# Verified models of the controller's protocols

A Django controller finds paid work, acquires it, executes it in steps, checks the result and
submits it. Underneath its views are several small protocols that keep state. This project models
them in Dafny and proves what they keep, over every input and every run.

Each module follows one component. Database rows are records, a `transaction.atomic` block is one
step, and a remote service, Docker, the clock or an execution is an oracle passed as a parameter.
Code that changes state is a class or a method with the source's loops; its contract equates the
new state with a specification function, and the theorems are lemmas about that function.

| file | component |
|---|---|
| `Prelude.dfy` | options, results, duplicate-free sequences, string order, sorted key sets |
| `TopologicalSteps.dfy`, `OrderTheorems.dfy` | ordering the steps of a composite workflow |
| `CompositeBuild.dfy` | compiling a workflow into plan rows |
| `CompositePlan.dfy` | the bounded executor of a composite plan |
| `CompositeProgress.dfy` | one executor: progress, step limit, repair accounting |
| `CompositeRuns.dfy` | any number of interleaved executors and submission tasks: dependency safety, delivery, failure |
| `CompiledWorkflow.dfy` | compiler and executor together |
| `JobLocks.dfy`, `Acquisition.dfy` | leases with fencing tokens; the acquisition section that uses them |
| `RefreshSessions.dfy` | refresh-token families with replay revocation |
| `WebhookEvents.dfy` | claiming, finishing and batching webhook events |
| `AuthThrottle.dfy` | the login throttle |
| `ModelCandidates.dfy`, `ModelNegotiation.dfy` | evidence about models and the failover loop |
| `Acceptance.dfy`, `AcceptanceGate.dfy` | versioned acceptance contracts and the submission gate |
| `DependencyCache.dfy` | the dependency-volume cache and its quotas |
| `JobAssets.dfy`, `AssetIngestion.dfy` | asset rows, their manifest, and ingestion under a byte budget |
| `JobLifecycle.dfy` | job states over whole runs |
| `SandboxTokens.dfy` | signed tokens and unpadded base64url |
| `Money.dfy` | rounding, the paid-cost envelope, offers and scores |

`dafny verify dfyconfig.toml` checks the whole project.

## Findings

Places where a property one would expect is false of the code. Each has a concrete run or a
condition that is both necessary and sufficient.

- A workflow with exactly as many steps as the step limit is accepted, runs and passes every step,
  and still ends blocked at the limit: a call ends QA_PASSED exactly when there are fewer steps
  than iterations (`CompositeProgress.PlanAtTheLimitIsBlocked`, `CompiledWorkflow.CompiledWorkflowRunsInOrder`).
- The order accepts a step that names one dependency twice; creating its links then fails
  (`CompositeBuild.BuildSucceedsIffNoRepeatedDependency`, `CompositeBuild.RepeatedDependencyFailsToBuild`).
- Two interleaved executors lose the repair bound: a step blocked at its bound is unlocked and run
  again (`CompositeRuns.InterleavingBreaksRepairBound`); which starts keep the accounting is exact
  (`CompositeProgress.StartKeepsAccountingIff`).
- Retrying a failed composite plan executes nothing while a step is failed or all have passed, with
  one executor and with many, until the plan is built again (`CompositeProgress.FailedPlanNeverRunsAgain`,
  `CompositeRuns.SpentPlanRests`). With one executor every failed plan is such a plan; with several,
  exactly as long as the exception of an execution of an earlier build and a failed submission find
  it so, and otherwise a retry can start a step (`CompositeRuns.StepKeepsFailedSpentIff`,
  `CompositeRuns.LateRaiseFailsNewPlan`, `CompositeProgress.RetryStartsIff`).
- A successful owner's review of one execution marks the whole plan QA_PASSED, and a submission task
  writes its outcome to the plan without looking again; a plan with steps that never ran can so be
  SUBMITTED. Delivered plans have only passed steps exactly while both kinds of write find them so
  (`CompositeRuns.ReviewedPartIsSubmitted`, `CompositeRuns.LateSubmissionMarksNewPlan`,
  `CompositeRuns.StepKeepsWholeIff`).
- A submitted plan does not stay so: an executor that is still looping takes it back to QA_PASSED or to
  BLOCKED, and a second submission task to FAILED (`CompositeRuns.SubmittedPlanIsReopened`,
  `CompositeRuns.SecondSubmitterFailsSubmittedPlan`, `CompositeRuns.SubmittedIsLeftIff`).
- The watchdog selects expired lock rows once and deletes them later by key. When a row is acquired
  again in between, the deletion ends a live lease and two nodes hold the lock; a deletion is harmless
  exactly if the row is still expired (`JobLocks.LateWatchdogBreaksExclusion`, `JobLocks.DeletionIsHarmlessIff`).
- Fencing tokens restart when the lock row is deleted, so a handle from an earlier life of the row
  can release a live lease of the same node (`JobLocks.TokensRepeatAcrossLives`).
- An application can be sent twice: if its row is created after the lease ended, if two processes use
  one node identifier (the callers pass the constant `VPS1`, control/services/agentgigs.py:330), or
  after a late deletion by the watchdog (`Acquisition.SlowNodeAppliesTwice`,
  `Acquisition.SharedNodeAppliesTwice`, `Acquisition.LateWatchdogAppliesTwice`). In every run it is sent
  once exactly if no application is recorded while an earlier row exists (`Acquisition.AppliedOnceIff`).
  For all kinds of attempt the invariant lasts exactly as long as every row is recorded unopposed and
  every deletion finds the lease over (`Acquisition.RunIsSoundIff`), and an opposed record is one that
  some orderly continuation turns into a second blocking attempt (`Acquisition.RecordIsHarmlessIff`).
  A claim or bid with an unknown outcome is sent again (`Acquisition.UnknownClaimIsRepeated`).
- A replayed refresh token is noticed exactly when it is presented before its expiry second
  (`RefreshSessions.ReplayIsNoticedIff`, `RefreshSessions.LateReplayGoesUnnoticed`).
- Logging out with an earlier token of a family leaves its session alive
  (`RefreshSessions.LogoutEndsFamilyIff`).
- A worker that writes its outcome later than 300 seconds after its claim, one whose audit record
  fails, or the watchdog when it writes late, turns a processed webhook event back into a failed one;
  with a window under 300 seconds the watchdog lets two workers handle one event. Which writes do harm
  is exact (`WebhookEvents.ActionIsHarmlessIff`, `WebhookEvents.LateFailureUndoesSuccess`,
  `WebhookEvents.LostAuditUndoesSuccess`, `WebhookEvents.LateWatchdogUndoesSuccess`,
  `WebhookEvents.ImpatientWatchdogSharesEvent`).
- The throttle's counter is bounded by its maximum exactly when the cooldown covers the window, and
  only for requests that come one at a time (`AuthThrottle.CounterBoundedIff`,
  `AuthThrottle.SimultaneousRequestsOvershoot`).
- Live failure evidence is not looked up for models outside the text category
  (`ModelCandidates.EvidenceSparesNonTextModels`).
- The hash of the sources does not determine the criteria: an empty snake-case key hides criteria
  under the camel-case key, and a contract compiled in that state lets an execution through without
  evidence (`Acceptance.MaterialDeterminesCriteriaIff`, `AcceptanceGate.ShadowedContractOpensGate`);
  that is the only way (`AcceptanceGate.GateDemandsEvidenceOfJob`). And the gate goes by an existing
  evaluation of the current contract, not by today's facts (`AcceptanceGate.GateOpensIff`).
- When Docker cannot list the volumes, they count as none and a full cache takes one more; when it
  cannot inspect an existing volume, the call fills it again over its contents
  (`DependencyCache.UnlistedVolumesDoNotCount`, `DependencyCache.UnseenVolumeIsSpoiled`).
  `DependencyCache.PrepareKeepsWithinIff` says exactly when a call keeps the cache within its limits.
- Staging an asset again at another path makes it a duplicate of itself
  (`JobAssets.RestagingElsewhereLosesContent`); a downloaded file that the content checks refuse ends
  the whole ingestion with an exception (`AssetIngestion.RefusedFileAbortsIngestion`).

## Model

| member | source | states |
|---|---|---|
| TopologicalSteps.OrderSteps | planning/services.py:350-379 | terminates on every list; the result is the canonical order of the accepted steps and the complaints are those of the three passes |
| TopologicalSteps.AcceptSteps | planning/services.py:351-361 | one pass keeps the first valid step of each key and complains about the rest |
| TopologicalSteps.AcceptIsConsistent | planning/services.py:351-361 | accepted keys and steps agree, and every accepted step is one of the list |
| TopologicalSteps.ValidKeyIff | planning/services.py:358-358 | a key is a letter followed by at most 79 letters, digits and hyphens |
| TopologicalSteps.CollectDependencies | planning/services.py:362-368 | the dependency graph of the accepted steps, with one complaint per step whose names are rejected |
| TopologicalSteps.LayOut | planning/services.py:369-378 | the round loop lays out the canonical order and gets stuck exactly on graphs with a cycle |
| TopologicalSteps.ChainIffWalk | planning/services.py:371-375 | a step still waits in round n exactly when a walk of n edges starts at it |
| TopologicalSteps.CycleIffLongChain | planning/services.py:371-375 | a graph has a cycle exactly when some step waits in as many rounds as there are steps |
| TopologicalSteps.DepthIsLongestChain | planning/services.py:371-378 | in a graph without cycles the depth of a step is the length of its longest dependency chain |
| TopologicalSteps.CanonicalOrderIsLayered | planning/services.py:371-378 | without a cycle the order is a permutation of all steps sorted by depth and then key |
| TopologicalSteps.LayeredOrderIsUnique | planning/services.py:371-378 | there is only one permutation sorted by depth and key |
| TopologicalSteps.DependenciesComeFirst | planning/services.py:371-378 | every dependency of a step stands before it in the order |
| OrderTheorems.CycleReportedIffCycle | planning/services.py:371-375 | a cycle is reported exactly when the accepted steps have one, whatever else is wrong |
| OrderTheorems.ValidStepsFailOnlyOnCycle | planning/services.py:350-379 | steps with valid distinct keys and known dependencies are rejected only for a cycle |
| OrderTheorems.OrderIsLayered | planning/services.py:350-379 | the returned list is sorted by longest-chain depth and key and holds every accepted step once |
| OrderTheorems.PermutingStepsChangesNothing | planning/services.py:350-379 | listing valid steps in another order changes neither the result nor the complaints |
| OrderTheorems.NoComplaintsMeansValid | planning/services.py:350-379 | no complaints means no rejected step, no rejected dependency and no cycle |
| OrderTheorems.NoReasonsIffValid | planning/services.py:350-379 | no complaints exactly for valid distinct keys with known dependencies and no cycle |
| OrderTheorems.ReturnedStepsAreGiven | planning/services.py:377-378 | each returned step carries the operation, roles, bounds and dependencies of the given step with its key |
| CompositeBuild.InspectSteps | planning/services.py:396-437 | all complaints about operations, asset roles, inputs and bounds, in stored order |
| CompositeBuild.LinkStep | planning/services.py:455-457 | the links of a step are the positions of its dependencies; the second link to one step is refused |
| CompositeBuild.BuildCompositePlan | planning/services.py:382-464 | a list is rejected with its complaints, fails on a repeated link, or becomes linked rows |
| CompositeBuild.BuiltPlanIsFresh | planning/services.py:438-458 | a built plan is within the limit, in canonical order, linked as declared, all links point back, and exactly the rows without links are ready |
| CompositeBuild.ComplaintsAre | planning/services.py:396-437 | each kind of complaint is made exactly in its case: unregistered operation, roles that are no list, an unapproved role, a required role without an asset, a missing input, an input spec that is no object, bounds that do not parse |
| CompositeBuild.ComplaintsInOrder | planning/services.py:396-437 | complaints of earlier steps come before those of later ones |
| CompositeBuild.BuildSucceedsIff | planning/services.py:382-464 | a list becomes rows exactly if its length is permitted, its steps are valid without cycle or repeated dependency, and every step is acceptable |
| CompositeBuild.RejectedAsDeserved | planning/services.py:434-436 | a rejected list of permitted length and order gets each deserved complaint once and no other |
| CompositeBuild.RejectedBefore | planning/services.py:384-391 | too few or too many steps, and complaints about the order, are all that is said then |
| CompositeBuild.BuiltRowsCarry | planning/services.py:419-458 | a row links exactly the rows of the names its step depends on, has the stated repair bound between 0 and 3, and waits exactly if it depends on something |
| CompositeBuild.BuildSucceedsIffNoRepeatedDependency | planning/services.py:452-458 | a list without complaints becomes rows exactly when no step names a dependency twice |
| CompositeBuild.RepeatedDependencyFailsToBuild | planning/services.py:452-457 | a list of two steps that passes every check and whose links cannot be created |
| CompositePlan.WorkPlan.UnlockCompositeSteps | planning/services.py:635-641 | one pass readies exactly the blocked steps whose dependencies, of which there is one, have all passed |
| CompositePlan.UnlockSays | planning/services.py:635-641 | which rows become ready, and that every other row stays |
| CompositePlan.StartRefusedIff | planning/services.py:648-649 | a step is refused exactly if something it depends on has not passed or lacks a passing QA row |
| CompositePlan.StartConsumes | planning/services.py:650-653 | a started step consumes exactly the artifacts of its dependencies |
| CompositePlan.StartSays | planning/services.py:691-712 | what starting a step writes to its row and the plan, and the note a repair leaves |
| CompositePlan.ChoiceSays | planning/services.py:677-726 | which step runs next, or how the plan stops and with which reason |
| CompositePlan.FinishSays | planning/services.py:736-775 | what each answer of an execution writes, and that no other row changes |
| CompositePlan.WorkPlan.StartStep | planning/services.py:644-664 | a step starts with its dependencies' artifacts, or is refused when one of them lacks a passing result |
| CompositePlan.WorkPlan.BeginIteration | planning/services.py:675-726 | the transaction of one iteration: stop, raise, or mark one step as executing |
| CompositePlan.WorkPlan.FinishIteration | planning/services.py:736-775 | how an execution's answer is written back to its step and plan |
| CompositePlan.WorkPlan.Execute | planning/services.py:667-777 | one bounded call does what its iterations do, and runs the steps they run |
| CompositePlan.LoopSays | planning/services.py:674-777 | what one iteration of the loop does: it ends the call, with or without an exception, or runs a step and goes on if that passes |
| CompositeProgress.FirstCall | planning/services.py:667-777 | the first call on a READY, QUEUED, EXECUTING or NEEDS_REPAIR plan runs the steps once each in stored order up to the first that does not pass; QA_PASSED exactly when all pass and the limit exceeds their number |
| CompositeProgress.CallRests | planning/services.py:671-672 | in the six other states a call runs nothing and leaves the plan as it was |
| CompositeProgress.EventsSay | planning/services.py:538-578 | what queueing, a denied admission, a failed submission and a retry do to a plan |
| CompositeProgress.PlanAtTheLimitIsBlocked | planning/services.py:674-776 | with as many steps as iterations every step passes and the plan ends blocked |
| CompositeProgress.StartKeepsAccountingIff | planning/services.py:691-721 | starting a step keeps attempts at one plus repairs exactly when it is a repair or a first attempt |
| CompositeProgress.RepairAccounting | planning/services.py:691-775 | over every sequence of calls, a step has no attempt or one more than its repairs, repairs within the bound, one history entry each, and the plan's counters are the sums |
| CompositeProgress.RetryOfFailedStepRunsNothing | planning/retry.py:57-63 | while a step is failed, whatever the other rows are, a retry fails the plan again and no later event runs a step |
| CompositeProgress.FailedPlanNeverRunsAgain | planning/services.py:667-777 | once a built plan has failed, with one executor no sequence of retries, calls and submissions executes a step of it again |
| CompositeProgress.FirstExecutionRaises | planning/services.py:730-745 | every fresh plan whose first execution raises ends there: failed, and nothing runs after the retry |
| CompositeProgress.RetryStartsIff | planning/retry.py:57-63 | a retry starts a step exactly if the rows, as the failure left them, have a next one to start, and it starts that one |
| CompositeRuns.EveryRunIsSafe | planning/services.py:635-777 | with any interleaving of executors, submission tasks, reviews and rebuilds: a step attempted or not blocked has all dependencies passed with a passing result, consumed what they produced, no two executors hold one step, and the plan's counters are exact |
| CompositeRuns.ExecutorsSay | planning/services.py:670-776 | who may enter the loop, what running out of iterations leaves, and what an answer to an earlier build writes |
| CompositeRuns.PlanningSays | planning/services.py:467-578 | when a plan is built again, queued, retried, sent back or denied, and what that leaves |
| CompositeRuns.SubmissionSays | planning/services.py:880-941 | when a submission task reads the plan, and what it writes whatever the plan has become; what a review writes |
| CompositeRuns.FailedStepStopsThePlan | planning/services.py:667-707 | once a step has failed, no interleaving of executors, retries and reviews executes any step until the plan is rebuilt |
| CompositeRuns.SpentPlanRests | planning/services.py:667-707 | the same for a plan with a failed step or only passed ones: whatever is interleaved, nothing executes until the plan is rebuilt |
| CompositeRuns.StepKeepsFailedSpentIff | planning/services.py:736-745 | a step leaves every FAILED plan such a plan exactly if it is no late exception of an earlier build and no failed submission, or finds it so |
| CompositeRuns.FailedPlansAreSpent | planning/services.py:667-941 | over runs without those writes, a FAILED plan has a failed step or only passed ones |
| CompositeRuns.LateRaiseFailsNewPlan | planning/services.py:736-745 | a run that fails a newly built plan without touching its steps, after which a retry starts one |
| CompositeRuns.StepKeepsWholeIff | planning/services.py:911-941 | a step keeps plans on their way out free of steps that have not passed exactly if it is neither a ready review nor a submission task's write, or finds every step passed |
| CompositeRuns.DeliveredPlansAreWhole | planning/services.py:667-941 | over runs in which those writes find every step passed, a plan on its way out has only passed steps |
| CompositeRuns.ReviewedPartIsSubmitted | control/management/commands/review_execution_acceptance.py:95-107 | a run that reviews an execution with passing QA and missing semantic evidence and submits the plan, whose other steps never ran |
| CompositeRuns.LateSubmissionMarksNewPlan | planning/services.py:911-941 | a run in which a task marks a plan SUBMITTED that was built after the task had read it |
| CompositeRuns.SubmittedIsLeftIff | planning/services.py:667-941 | exactly which of the actions take a plan out of SUBMITTED, and where an executor in its loop takes it |
| CompositeRuns.SubmittedPlanIsReopened | planning/services.py:667-707 | a run of a two-step plan that goes from SUBMITTED back to QA_PASSED |
| CompositeRuns.SecondSubmitterFailsSubmittedPlan | planning/services.py:911-941 | a run in which a second submission task writes FAILED over SUBMITTED |
| CompositeRuns.InputsNeverMissing | planning/services.py:648-649 | in a safe plan the error about missing upstream results cannot occur |
| CompositeRuns.PassedStepsStayPassed | planning/services.py:766-770 | until the plan is rebuilt, the row of a passed step never changes |
| CompositeRuns.ProvenanceIsStable | planning/services.py:650-653 | what a passed step consumed is what its dependencies still hold |
| CompositeRuns.InterleavingBreaksRepairBound | planning/services.py:635-641 | a run of two executors in which a step at its repair bound runs again |
| CompiledWorkflow.CompiledWorkflowRunsInOrder | planning/services.py:382-777 | a compiled workflow, as built or once queued, runs in order, never a step before its dependencies, and passes exactly when all steps pass and there are fewer than the limit |
| CompiledWorkflow.CompiledWorkflowIgnoresListOrder | planning/services.py:350-464 | the plan built from a valid workflow does not depend on the order of its list |
| JobLocks.JobLock.Acquire | control/services/locks.py:12-25 | a free, expired or own lease is taken with the next token; another node's live lease is an error |
| JobLocks.JobLock.Renew | control/services/locks.py:29-35 | only the current unexpired handle extends the lease |
| JobLocks.JobLock.Release | control/services/locks.py:39-45 | the row goes only to the node and token it holds; a missing row is no error |
| JobLocks.AcquiredIff | control/services/locks.py:12-25 | exactly who may acquire, with which lease and token |
| JobLocks.RenewedIff | control/services/locks.py:29-35 | exactly who may renew, and until when the lease lasts then |
| JobLocks.ReleasedIff | control/services/locks.py:39-45 | exactly who may release |
| JobLocks.NextKeepsConsistent | control/services/locks.py:11-45 | tokens strictly increase within one life of the row and all handles but the newest are released, superseded or expired; every operation keeps this, and the watchdog if the row it deletes is still expired |
| JobLocks.DeletionKeepsConsistentIff | control/services/recovery.py:97-102 | a deletion by the watchdog keeps it exactly if the lease is over at that moment |
| JobLocks.DeletionIsHarmlessIff | control/services/recovery.py:97-102 | after a deletion any node can acquire; two handles are then live exactly if the deletion came late |
| JobLocks.LateWatchdogBreaksExclusion | control/services/recovery.py:97-102 | a run of any three nodes in which the watchdog ends a live lease and two handles are live |
| JobLocks.AtMostOneLiveHandle | control/services/locks.py:11-45 | while no deletion by the watchdog comes late, no two handles are ever live |
| JobLocks.AcquireIsSafe | control/services/locks.py:19-25 | in such runs, when a node acquires, every other node's handle is released, superseded or expired |
| JobLocks.AcquireFailsIffOtherLive | control/services/locks.py:19-20 | in such runs, acquiring fails exactly while another node's handle is live |
| JobLocks.LiveHandleRenews | control/services/locks.py:29-35 | in such runs the live handle can always renew: its lease then ends one lease after the renewal, and nothing else changes |
| JobLocks.SupersededIsFencedOff | control/services/locks.py:31-44 | a superseded handle can neither renew nor release for the rest of the row's life, late deletions included |
| JobLocks.ReleaseReachesOwnRowOrSameNodeLater | control/services/locks.py:43-45 | which row a handle's release can reach: its own, or a later one of the same node with the same token |
| JobLocks.TokensRepeatAcrossLives | control/services/recovery.py:97-102 | after the row is deleted a handle of the earlier life releases a live lease |
| Acquisition.Desk.AcquireProfitableJob | control/services/acquisition_runtime.py:57-131 | when a remote call goes out, which attempt row it leaves, that an answered one blocks the next and one without an answer only blocks an application, and that the lock is free afterwards |
| Acquisition.BlocksByKind | control/services/acquisition_runtime.py:21-27 | which status of an earlier attempt rules out another, for each kind |
| Acquisition.AnswerBlocks | control/services/acquisition_runtime.py:64-97 | the status an answer leaves, and exactly when it blocks |
| Acquisition.AnsweredStaysBlocked | control/services/acquisition_runtime.py:21-97 | in every run, once a request was answered every later check of its kind fails |
| Acquisition.EveryRunIsSound | control/services/acquisition_runtime.py:21-131 | over every interleaving in which rows are recorded unopposed and the watchdog is on time: processes in the section hold the lease, checks stay true, attempts have one owner |
| Acquisition.RunIsSoundIff | control/services/acquisition_runtime.py:57-131 | from a sound state, every state of a run is sound exactly if each row is recorded with nothing blocking it and no other live process about to record the same, and each deletion finds the lease over |
| Acquisition.LiveRowsAreCareful | control/services/acquisition_runtime.py:57-131 | creating rows under live handles with a watchdog on schedule meets those conditions |
| Acquisition.RecordIsHarmlessIff | control/services/acquisition_runtime.py:61-97 | a record leaves at most one blocking attempt of a kind in every continuation under live handles exactly if it was unopposed |
| Acquisition.AtMostOneRemoteApply | control/services/acquisition_runtime.py:84-101 | in such runs at most one application row and one remote application per job, through failures, crashes and unknown outcomes |
| Acquisition.AppliedOnceIff | control/services/acquisition_runtime.py:26-97 | in every run, whatever the lock, the watchdog and the node identifiers do: one application row and one request exactly if none is recorded while an earlier row exists |
| Acquisition.DistinctNodesApplyOnce | control/services/acquisition_runtime.py:84-101 | if no two processes use one node identifier at a time, creating rows before the lease ends is enough |
| Acquisition.AtMostOneOutstanding | control/services/acquisition_runtime.py:21-27 | in such runs at most one claim, and one bid, is pending or has succeeded |
| Acquisition.SlowNodeAppliesTwice | control/services/acquisition_runtime.py:58-97 | a node that creates its row after its lease ended makes two applications possible, and which conditions this run keeps |
| Acquisition.SharedNodeAppliesTwice | control/services/locks.py:19-25 | two processes under one node identifier send two applications, with every row in time |
| Acquisition.LateWatchdogAppliesTwice | control/services/recovery.py:97-102 | a late deletion lets two different nodes apply under live handles |
| Acquisition.UnknownClaimIsRepeated | control/services/acquisition_runtime.py:22-23 | a claim with an unknown outcome does not block a second request |
| Acquisition.UndisturbedFlow | control/services/acquisition_runtime.py:57-131 | without interference the interleaved steps leave what the one call leaves |
| Acquisition.WithdrawnFlow | control/services/acquisition_runtime.py:57-131 | a process that is turned away leaves no row, sends nothing and frees the lock |
| RefreshSessions.RefreshStore.IssueRefresh | control/jwt_auth.py:29-39 | a new unrevoked session and a token with its identifier, family and whole-second expiry |
| RefreshSessions.RefreshStore.RevokeWholeFamily | control/jwt_auth.py:68-69 | every session of the family is revoked and no other is touched |
| RefreshSessions.RefreshStore.RotateRefresh | control/jwt_auth.py:53-83 | the error, revocation or successor for each kind of presented token |
| RefreshSessions.FamiliesAreChains | control/jwt_auth.py:53-91 | in every reachable state a family is one chain of successors with at most its last session unrevoked |
| RefreshSessions.ReplayKillsFamily | control/jwt_auth.py:68-70 | presenting a used or revoked session before its expiry second leaves no usable session in the family |
| RefreshSessions.DeadFamilyStaysDead | control/jwt_auth.py:53-91 | in a dead family no later rotation ever succeeds |
| RefreshSessions.LogoutEndsFamilyIff | control/jwt_auth.py:86-91 | logging out ends a live family exactly if the token decodes and is the family's last; no other family changes |
| RefreshSessions.LogoutIsForGood | control/jwt_auth.py:53-91 | after a logout with the last token, no later run ever lets a token of the family rotate |
| RefreshSessions.SecurityResetIsForGood | control/views.py:286-288 | after a security reset, in every later run no token of a family the user held rotates; other users' sessions are untouched |
| RefreshSessions.RotationSucceedsIff | control/jwt_auth.py:68-78 | rotation succeeds exactly for an unrevoked session before both expiries, and then leaves one unrevoked session of the same user and family |
| RefreshSessions.RotationSparesOthers | control/jwt_auth.py:68-78 | whatever is presented, no session of another family changes and a new one belongs to the family presented |
| RefreshSessions.ReplayIsNoticedIff | control/jwt_auth.py:53-70 | after a replay the family is dead exactly if it was before or the token still decoded |
| RefreshSessions.LateReplayGoesUnnoticed | control/jwt_auth.py:53-70 | a run in which a replayed token leaves the family alive |
| WebhookEvents.Inbox.ClaimEvent | control/services/agentgigs.py:451-471 | processed, freshly claimed and exhausted events are refused; otherwise one more attempt at this moment |
| WebhookEvents.ClaimSays | control/services/agentgigs.py:456-471 | exactly which events may be claimed, and the row afterwards |
| WebhookEvents.Inbox.ProcessEvent | control/services/agentgigs.py:503-584 | the event after handling for each way the handling ends, and whether the call raises |
| WebhookEvents.ProcessSays | control/services/agentgigs.py:503-584 | the status after each way the handling ends |
| WebhookEvents.Inbox.ProcessPending | control/services/agentgigs.py:587-607 | an undisturbed batch claims every selected event once, skips none, touches no other, and its tally adds up |
| WebhookEvents.SelectedAreOldest | control/services/agentgigs.py:590-597 | a batch takes the oldest waiting events in order, and all of them up to the limit between 1 and 500 |
| WebhookEvents.AttemptsAreBounded | control/services/agentgigs.py:464-471 | for any workers and timing: five attempts an event, at most 5n claims for n events |
| WebhookEvents.AtMostOneWorkerPerEvent | control/services/agentgigs.py:451-481 | if outcomes are written within 300 seconds of the claim or to an unprotected event, and the watchdog writes to unprotected events, one worker at a time handles an event |
| WebhookEvents.ProtectionLasts300Seconds | control/services/agentgigs.py:456-465 | a claimed event can be claimed again exactly from 300 seconds on |
| WebhookEvents.ProcessedIsFinal | control/services/agentgigs.py:451-584 | in such runs, with written audit records, an event is handled to the end at most once and PROCESSED is final |
| WebhookEvents.ActionIsHarmlessIff | control/services/agentgigs.py:474-481 | these conditions are exact: after such a run, an action keeps one worker an event, one completed handling an event and every PROCESSED exactly if it meets them |
| WebhookEvents.LateWatchdogUndoesSuccess | control/services/recovery.py:172-176 | a run in which the watchdog fails an event that was processed after it was selected |
| WebhookEvents.WatchdogActs | control/services/recovery.py:172-176 | the watchdog selects exactly claims past its window of at least a minute, and fails what it selected |
| WebhookEvents.ImpatientWatchdogSharesEvent | control/services/recovery.py:172-176 | a run in which a short window puts two workers on one event |
| WebhookEvents.LateFailureUndoesSuccess | control/services/agentgigs.py:474-481 | a run in which a slow worker's failure reopens a processed event |
| WebhookEvents.LostAuditUndoesSuccess | control/services/agentgigs.py:563-571 | a success whose audit record fails is taken back |
| AuthThrottle.Throttle.RecordFailure | control/services/auth_security.py:57-72 | the row after a failure: window, count and lock |
| AuthThrottle.CounterBoundedIff | control/services/auth_security.py:51-72 | the counter stays within the maximum over every run exactly when the cooldown covers the window |
| AuthThrottle.DefaultsAreBounded | control/services/auth_security.py:34-48 | every built-in policy keeps its counter within its maximum |
| AuthThrottle.DefaultsAre | control/services/auth_security.py:35-41 | the failures, window and cooldown of each built-in policy |
| AuthThrottle.RecordedSays | control/services/auth_security.py:57-72 | a failure counts in its window, or as the first after it, and locks exactly from the maximum on |
| AuthThrottle.RequestsAreRecorded | control/services/auth_security.py:51-72 | a failing request is recorded exactly when it is let through |
| AuthThrottle.RefusedIff | control/services/auth_security.py:51-71 | requests are refused exactly while the maximum is reached and the cooldown after the last failure lasts |
| AuthThrottle.FailureRateIsBounded | control/services/auth_security.py:57-72 | in the first t after creation at most maximum * (t / window + 1) failures are recorded |
| AuthThrottle.SimultaneousRequestsOvershoot | control/services/auth_security.py:51-72 | requests checked before any is recorded drive the counter past every bound |
| ModelCandidates.Ledger.RecordToolRejection | workers/genx_support.py:217-260 | a compatibility failure becomes a free call with evidence, or nothing changes |
| ModelCandidates.Ledger.RecordProviderTransient | workers/genx_support.py:263-306 | a provider failure becomes a free call with evidence, or nothing changes |
| ModelCandidates.Ledger.RecordRemoteFailure | workers/genx_support.py:187-214 | a failure counts only if it is unambiguous, about this remote job and not billed |
| ModelCandidates.AcceptedFailureIff | workers/genx_support.py:187-214 | a failure is accepted exactly if it is the terminal failure, with a status of the kind asked for, of the call's own remote job, and the call is a failed research call with credits 0, cost absent or 0 and billing not ACTUAL |
| ModelCandidates.RecordingKeepsCharges | workers/genx_support.py:217-306 | recording never changes what a row had cost |
| ModelCandidates.RecordingLeavesRecord | workers/genx_support.py:241-305 | the audit record that recording leaves |
| ModelCandidates.ConfirmedRejectionIff | workers/genx_support.py:101-128 | exactly what confirms that a model rejects the tool |
| ModelCandidates.TransientObservedIff | workers/genx_support.py:131-162 | exactly what confirms a passing trouble, and when it was seen |
| ModelCandidates.ObservationSays | workers/genx_support.py:339-349 | what a call says about its model, and as of when |
| ModelCandidates.RejectionRoundTrip | workers/genx_support.py:101-128 | what is recorded as a rejection reads back as a confirmed rejection |
| ModelCandidates.TransientRoundTrip | workers/genx_support.py:131-162 | what is recorded as transient reads back with its time |
| ModelCandidates.EvidenceIgnoresOthers | workers/genx_support.py:108-141 | evidence about a call does not depend on records about other calls |
| ModelCandidates.Ledger.LatestObservations | workers/genx_support.py:330-349 | for each text model the newest conclusive observation |
| ModelCandidates.Ledger.ResearchModelIds | workers/genx_support.py:309-385 | the candidate list of the ledger as it is |
| ModelCandidates.CandidatesAreUsable | workers/genx_support.py:370-385 | the list is sorted, nonempty and free of unavailable models; with a text model it fails exactly when every catalogue model is unavailable |
| ModelCandidates.CandidatesPrefer | workers/genx_support.py:370-385 | proven models are offered if one is available, else the advertised ones, else any text model |
| ModelCandidates.UnavailableIff | workers/genx_support.py:351-369 | exactly which models are out: excluded ones, and text models whose newest evidence is a rejection or trouble that has not lapsed |
| ModelCandidates.ProvenIff | workers/genx_support.py:351-371 | exactly which models are proven |
| ModelCandidates.CutoffsAre | workers/genx_support.py:317-353 | how long each kind of evidence lasts, and how far back calls are looked at |
| ModelCandidates.UntriedTextModelSuffices | workers/genx_support.py:370-385 | one text model without bad evidence keeps the negotiation going |
| ModelCandidates.EvidenceSparesNonTextModels | workers/genx_support.py:332-336 | an advertised model outside the text category stays a candidate whatever was observed |
| ModelNegotiation.Researcher.Judge | workers/genx_support.py:464-507 | whether an answer is used, raised, or gives the model up with recorded evidence |
| ModelNegotiation.JudgedSays | workers/genx_support.py:464-507 | exactly how each ending of an attempt is judged, and what it records |
| ModelNegotiation.Researcher.Negotiate | workers/genx_support.py:452-511 | the loop over the ledger, attempt by attempt |
| ModelNegotiation.NegotiationIsBoundedAndFree | workers/genx_support.py:457-511 | no model is tried twice, attempts stay within the limit, and every attempt before the last is in the end a failed call that is not billed |
| ModelNegotiation.OnlyFreeFailuresAreGivenUp | workers/genx_support.py:187-507 | every row given up had cost nothing as the gateway left it, and every row of the ledger keeps the charge it was left with |
| Acceptance.MaterialDeterminesCriteriaIff | planning/acceptance.py:34-55 | jobs with the same hashed material have the same criteria exactly when both or neither hide camel-case criteria |
| Acceptance.TextsByShape | planning/acceptance.py:34-42 | for each shape of the value under the acceptance keys, which texts are criteria, in order |
| Acceptance.NoTextsWithoutValue | planning/acceptance.py:34-42 | without either key, or with an empty value, there are no criteria |
| Acceptance.MaterialLeavesOutEmpty | planning/acceptance.py:45-55 | the hash leaves out exactly the values null, "", [] and {} |
| Acceptance.CriteriaAre | planning/acceptance.py:93-102 | a contract asks for the artifact, the QA, the test command exactly for coding plans, and every text of the job in order, cut at 1000 characters, all critical and exactly the texts semantic |
| Acceptance.CompileAppendsIff | planning/acceptance.py:111-137 | exactly when a new contract is made, what it is, and what becomes of the old one |
| Acceptance.CompileKeepsVersioned | planning/acceptance.py:105-143 | versions stay 1..n with exactly the newest current, and its hash is that of the sources |
| Acceptance.RecompilingIsNoOp | planning/acceptance.py:111-113 | compiling unchanged sources again changes nothing |
| Acceptance.ReadyIff | planning/acceptance.py:194-249 | an execution is ready exactly with artifact, passing QA, coding evidence and every critical criterion passing under an overall PASS; the stale branch is never taken |
| Acceptance.EvaluationSays | planning/acceptance.py:194-239 | each deterministic failure is reported exactly in its case, and readiness is no failure and a PASS |
| Acceptance.JudgmentSays | planning/acceptance.py:158-191 | each semantic failure exactly in its case, and the overall state by cases |
| AcceptanceGate.Desk.CompileContract | planning/acceptance.py:105-143 | the contract rows after compiling and the current one |
| AcceptanceGate.Desk.SemanticEvaluation | planning/acceptance.py:158-191 | the loop's overall judgment and failures |
| AcceptanceGate.Desk.EvaluateExecution | planning/acceptance.py:194-249 | one evaluation row per execution, against the contract just compiled |
| AcceptanceGate.Desk.RequireSubmissionReady | planning/acceptance.py:252-265 | the gate's result and what it leaves in the rows |
| AcceptanceGate.VersionsAreConsecutive | planning/acceptance.py:111-137 | in every run versions are 1..n and exactly the newest is current |
| AcceptanceGate.GateRequiresReady | planning/acceptance.py:252-265 | whoever passes has a ready evaluation of the newest contract, whose hash is that of the sources, and had met its criteria |
| AcceptanceGate.GateDemandsEvidence | planning/acceptance.py:252-265 | with a criterion stated in the sources of the contract in force, whoever passes has evidence that says PASS and judges no criterion otherwise |
| AcceptanceGate.GateDemandsEvidenceOfJob | planning/acceptance.py:252-265 | the same for the job as it is at submission, unless the contract was compiled while its criteria were hidden |
| AcceptanceGate.ShadowedContractOpensGate | planning/acceptance.py:34-55 | a contract compiled while the criteria were hidden lets an execution through without evidence |
| AcceptanceGate.RefusalSays | planning/acceptance.py:252-265 | what a refusal gives as reasons, never none |
| AcceptanceGate.GateOpensIff | planning/acceptance.py:252-265 | exactly when the gate opens, and whose facts it goes by |
| AcceptanceGate.SubmittedUnderJudgedPlan | planning/acceptance.py:226-265 | with an injective hash the plan an execution was judged by is the one it is submitted under |
| DependencyCache.Broker.Usage | sandbox_broker/server.py:144-147 | the bytes of the first hundred volumes, or an error when a statistic cannot be read |
| DependencyCache.Broker.Await | sandbox_broker/server.py:175-191 | how polling the preparation container ends |
| DependencyCache.AwaitedFrom | sandbox_broker/server.py:175-191 | polling ends at the first poll that decides; success is an exit with code 0, measured and within bounds, and each error has its case |
| DependencyCache.FilledIff | sandbox_broker/server.py:152-195 | a volume is filled exactly if its container starts, ends well and leaves a ready volume within bounds |
| DependencyCache.Broker.PrepareDependencies | sandbox_broker/server.py:128-208 | the volumes and the result of one call, for every way Docker can inspect, list, measure, create, start, end and remove |
| DependencyCache.PrepareSays | sandbox_broker/server.py:133-151 | at which step a call ends and with which volumes: hit, failure before creation, or filling |
| DependencyCache.LimitsAre | sandbox_broker/server.py:129-143 | the limits that settings amount to |
| DependencyCache.Broker.CleanupVolumes | sandbox_broker/server.py:231-245 | old removable volumes go and are counted |
| DependencyCache.CleanupRemovesOld | sandbox_broker/server.py:231-245 | exactly the old removable volumes among the first thousand go; the others stay in order |
| DependencyCache.PrepareKeepsWithinIff | sandbox_broker/server.py:128-203 | one call keeps count, bytes and readiness exactly if it sees the volume, or a guard stops it before creation, or an unanswered creation hits an existing volume, or the filled volume was counted with the others or fits among them, or the failed one is removed or is bounded and fits |
| DependencyCache.FailedPrepareAddsNothing | sandbox_broker/server.py:196-200 | a failed call adds no volume if Docker removes what failed, except the empty one of a creation whose answer was lost |
| DependencyCache.CountStaysBounded | sandbox_broker/server.py:140-149 | the number of volumes never passes the maximum even if every removal fails |
| DependencyCache.QuotaHolds | sandbox_broker/server.py:128-245 | after every call of every run, failing inspections included: count and bytes within quota, every volume ready and bounded |
| DependencyCache.UnlistedVolumesDoNotCount | sandbox_broker/server.py:140-141 | a failed listing lets a full cache grow |
| DependencyCache.UnseenVolumeIsSpoiled | sandbox_broker/server.py:133-200 | an existing volume that is not seen and overflows when filled again: the cache leaves its limits exactly if the volume cannot be removed, and loses it otherwise |
| JobAssets.AssetDesk.RebuildManifest | planning/services.py:42-79 | the manifest is that of the rows |
| JobAssets.AssetDesk.StageLocalAsset | planning/services.py:82-142 | the staged row, a fresh manifest and a failed or blocked plan sent back to planning, or no change at all |
| JobAssets.AssetDesk.BlockAsset | control/services/agentgigs_assets.py:90-120 | the blocked row and a fresh manifest |
| JobAssets.ManifestVerifiedIff | planning/services.py:44-66 | a manifest is verified exactly when some row counts, none is blocked and both quotas hold |
| JobAssets.RolesListCountedRows | planning/services.py:58-60 | each role lists exactly its counted rows, each once and in creation order |
| JobAssets.MaterialInOrder | planning/services.py:44-64 | the material lists in order exactly the verified rows that duplicate no other |
| JobAssets.BytesAreOfMaterial | planning/services.py:48-74 | the counted bytes and files are those of the material |
| JobAssets.ManifestReasons | planning/services.py:45-76 | which reasons a manifest gives, each exactly in its case |
| JobAssets.StageKeepsSound | planning/services.py:104-130 | verified rows with the same content keep one path, and external identifiers stay unique |
| JobAssets.RowForSays | planning/services.py:121-130 | which row an upload goes to |
| JobAssets.StagedRowSays | planning/services.py:104-122 | what staging writes, and which row a duplicate points at |
| JobAssets.BlockedRowSays | control/services/agentgigs_assets.py:90-108 | what blocking writes, and what it leaves |
| JobAssets.InputsChangedSays | planning/services.py:132-136 | new inputs send back exactly a failed or blocked plan |
| JobAssets.StagedIsVerifiedIff | planning/services.py:104-118 | a staged file is verified exactly when no verified row holds its content elsewhere |
| JobAssets.RestagingElsewhereLosesContent | planning/services.py:104-122 | an asset staged again at another path blocks itself and its content is no longer verified |
| AssetIngestion.Ingestor.Ingest | control/services/agentgigs_assets.py:136-248 | rows, tally and manifest after one ingestion, and the plan sent back exactly if something was ingested |
| AssetIngestion.Ingestor.VisitOne | control/services/agentgigs_assets.py:179-240 | what one reference does to rows and counters |
| AssetIngestion.EveryReferenceIsCounted | control/services/agentgigs_assets.py:163-248 | on every normal return found = ingested + existing + blocked + failed |
| AssetIngestion.RoleSays | control/services/agentgigs_assets.py:123-133 | the role of a reference, and when it is refused |
| AssetIngestion.AlreadyThereIff | control/services/agentgigs_assets.py:185-193 | when a reference is already there |
| AssetIngestion.VisitSays | control/services/agentgigs_assets.py:179-240 | how one reference ends, case by case |
| AssetIngestion.RefusalSays | control/services/agentgigs_assets.py:145-160 | when a batch is refused as a whole |
| AssetIngestion.IngestedSays | control/services/agentgigs_assets.py:145-248 | the whole call: a refused batch, or the loop over all references |
| AssetIngestion.DeclaredBytesAdd | control/services/agentgigs_assets.py:156-156 | the declared bytes are the sum over the references |
| AssetIngestion.RefusedBatchIsBlocked | control/services/agentgigs_assets.py:145-160 | then every reference gets a blocked row and no other row changes |
| AssetIngestion.BytesStayWithinLimit | control/services/agentgigs_assets.py:177-240 | after every reference verified bytes are within the limit, or have not grown above it |
| AssetIngestion.IngestionKeepsQuota | control/services/agentgigs_assets.py:161-248 | the whole call keeps the byte limit and one path per content |
| AssetIngestion.RefusedFileAbortsIngestion | control/services/agentgigs_assets.py:207-240 | exactly when an exception leaves the loop |
| JobLifecycle.JobRecord.TransitionJob | control/job_state.py:21-26 | moving to the current state is no error, off the table it is |
| JobLifecycle.AllowedIff | control/job_state.py:7-18 | every state but the two final ones can fail, and which eleven steps there are besides |
| JobLifecycle.JobRecord.PrepareFailedWorkPlanRetry | planning/retry.py:26-63 | the first guard that refuses, or the reopened job |
| JobLifecycle.RetrySucceedsIff | planning/retry.py:26-63 | a retry goes through exactly for a failed plan of a failed job with nothing submitted, active or unsafe, and each refusal has its case |
| JobLifecycle.WritersSay | control/services/genx_recovery.py:124-140 | when recovery, review and demotion write the state, and what they leave |
| JobLifecycle.RowsSay | control/job_state.py:21-26 | what a transition, planning and the surrounding rows change in the job |
| JobLifecycle.SettledJobsWentThrough | control/job_state.py:7-18 | a settled job was EXPECTED, acquired, EXECUTING, SUBMITTED and ACCEPTED in this order, whatever was reopened or recovered |
| JobLifecycle.SettledIsFinal | control/job_state.py:16-16 | nothing moves a settled job |
| JobLifecycle.ChangesAreBounded | control/job_state.py:7-18 | r revisions, q retries, s recoveries and d demotions allow at most 7 + 2r + 6q + 5s + 2d changes of state |
| JobLifecycle.BoundIsMet | control/job_state.py:7-18 | for every r and q some run to SETTLED makes exactly 7 + 2r + 6q changes |
| SandboxTokens.DecodeUndoesEncode | control/sandbox_tokens.py:36-41 | decoding the unpadded encoding gives back every byte string |
| SandboxTokens.EncodeIsInjective | control/sandbox_tokens.py:36-37 | different byte strings have different encodings |
| SandboxTokens.BitsIs | control/sandbox_tokens.py:40-41 | the alphabet of the decoder: the letters of the encoder, and + and / besides |
| SandboxTokens.ForeignCharactersAreSkipped | control/sandbox_tokens.py:40-41 | a character that is neither letter nor padding changes nothing, wherever it stands |
| SandboxTokens.PaddingEndsGroup | control/sandbox_tokens.py:40-41 | padding that completes a group ends the text, and a text that ends inside a group is an error |
| SandboxTokens.TakeMovesOn | control/sandbox_tokens.py:40-41 | a letter moves on in its group, forgets padding seen before it, and completes a byte unless it is the first |
| SandboxTokens.PaddingCompletes | control/sandbox_tokens.py:40-41 | the padding put back completes a group of four |
| SandboxTokens.AsciiOnly | control/sandbox_tokens.py:40-41 | a character outside ASCII is an error |
| SandboxTokens.IssuedTokensVerify | control/sandbox_tokens.py:44-85 | an issued token verifies to its claims strictly before expiry and is expired from then on |
| SandboxTokens.LifetimeIs | control/sandbox_tokens.py:45-45 | the lifetime asked for, between a minute and two hours |
| SandboxTokens.CheckedSays | control/sandbox_tokens.py:66-81 | which payloads are accepted with which claims, and which error comes first otherwise |
| SandboxTokens.AcceptedTokensAreSigned | control/sandbox_tokens.py:60-81 | an accepted token is the signed form of its first part |
| SandboxTokens.TamperedTokensAreRejected | control/sandbox_tokens.py:62-65 | a changed first part under another part's signature is rejected |
| Money.PaidCostEnvelope | control/acquisition.py:51-103 | the budget is allowed exactly for sensible inputs with more than the minimum profit within the ceiling |
| Money.EnvelopeReasons | control/acquisition.py:71-91 | each reason is given exactly in its case |
| Money.AffordableIff | control/acquisition.py:71-91 | what an affordable job is, in terms of its figures alone |
| Money.ApprovedIsLeast | control/acquisition.py:79-81 | the budget is the least of the planned cost, what the job supports and the ceiling, never negative |
| Money.AllowedBudgetKeepsProfit | control/acquisition.py:79-85 | expected cost <= approved <= min(supported, ceiling), and spending all of it leaves the minimum profit |
| Money.RoundsToNearest | control/economics.py:29-30 | rounding gives the nearest whole unit, away from zero on a tie |
| Money.RoundingIsMonotone | control/economics.py:29-30 | larger amounts never round to smaller ones |
| Money.OfferStaysInBudget | control/services/agentgigs.py:181-206 | an offer is whole cents between the two rounded bounds, in either order |
| Money.BudgetIs | control/services/agentgigs.py:181-188 | a budget field is the nearest cent, and none if negative or missing |
| Money.CashIsMonotone | control/economics.py:40-48 | with a net reward that is not negative, a higher probability never lowers the expected cash |
| Money.ScoresAreNearExact | control/economics.py:33-51 | every figure is within half a unit in its last place |
| Money.ExactFigures | control/economics.py:33-44 | the exact figures behind the score, and which inputs are refused |
| Money.PerCreditIsNear | control/economics.py:46-51 | the profit per credit is rounded to four places |
| Money.FiguresAreCents | control/economics.py:44-50 | the other four figures are whole cents |

## Left out

- The views, templates, dashboards, URL and settings files, migrations and the admin: user interface and plumbing.
- The non-composite executor: a repair that is queued again comes back as QUEUED and is not counted as one (planning/services.py:576-577 and 788-800), so it has no bound on executions to state.
- Watchdog recovery of stale executions, plans, submissions and workers (control/services/recovery.py:80-170): what a crashed executor leaves in EXECUTING stays there. Its handling of locks and webhook events is modelled.
- Recovery of completed provider results (control/services/genx_recovery.py), which writes the plan of a single operation.
- Database anomalies inside one transaction; writing back an execution's outcome is one step although the source uses several statements.
- The submission rows and the remote request inside a submission task: a task reads the plan and writes one of its four outcomes.
- Coercing workflow keys and names with `str()` and `strip()`: a raw step already holds its stripped key and its list of names.
- Asset identifiers, costs and input specifications of composite steps; artifacts are identifiers.
- Ingestion for a job that is neither CLAIMED nor AWARDED, which does nothing.
- The adapter's payloads, prices and messages in the acquisition flow, and the job's state change after a claim.
- JSON parsing, SHA-256 and HMAC: uninterpreted functions. The signature check and the claims of access tokens: every presented refresh token was minted here.
- What a webhook's handler does to jobs and payouts: one outcome per handling.
- Environment parsing errors: configuration is a parameter, clamped as the source clamps it.
- Jobs the seller channels create as AWARDED: the job theorems are about jobs that start as opportunities.
- Throttle rows, asset rows and contracts of other subjects and jobs: each model is about one of them.
- Keyword matching in the model catalogue and reading the HTTP status out of a provider's text.
- The criterion rows stored with an evaluation; failures and the judgment are modelled.
- Docker's containers, networks and commands, the manifest hash and the age of sandbox containers.
- Downloads, path resolution, MIME inspection and archive checks of assets: one outcome per file.
- The 28-digit precision of the decimal context, and the order of the envelope's reasons.
- `acquisition_gate`, payout states, settlement and launch rules, autonomy flags, registry and catalogue tables: collectors of flags that give only easy members.
- The keyword classifiers that infer operations and the media, tabular and document workers.
- CompositeProgress.RepairAccounting: for one executor; with interleaved executors it is false, as CompositeRuns.InterleavingBreaksRepairBound shows.
- ModelNegotiation.NegotiationIsBoundedAndFree: assumes that the gateway opens sessions only for models of the list it is given and that no other worker writes to the ledger during the negotiation.
- WebhookEvents.Inbox.ProcessPending: for a batch without other workers; interleaved workers are covered by the lemmas on runs.
- DependencyCache.QuotaHolds: needs Docker to list the volumes, to answer what it creates and to remove failed ones; PrepareKeepsWithinIff says what each call does otherwise.
