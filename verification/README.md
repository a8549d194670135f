# Verified model of the Vonk Forge control logic

Vonk Forge switches a small GPU cluster between whole-cluster workload profiles, runs a
fenced agent on every node, and publishes signed platform releases. This project models
the parts of it whose correctness depends on more than one function: the profile switch
and its state file, the agent's credential store and attempt table, the package helper's
replay guard and framing, placement and admission, snapshot verification, publication,
maturity histories, release chains, and the close/pull protocol of the registry client.

The main results, each for all inputs or all runs:

- **Switching.** Over every schedule of switches, failures, machine crashes after any file
  step, and manual recoveries of fenced transitions, whoever loads the controller state is
  not misled: `active` means that the profile's whole residency passed health and inference
  in the run that published it and that nothing was started or stopped since, and `stopped`
  means that nothing runs anywhere (`SwitchRuns.RunSchedule`). A switch that is admissible
  and meets no failure succeeds, and it is blocked only for cause: what a switch or a manual
  recovery left active or stopped can be switched again (`Switcher.ProfileSwitcher.Transition`,
  `SwitchRuns.SwitchTwice`, `SwitchRuns.RecoverAndSwitch`).
- **Credentials.** After a crash at any file step the store opens again, every generation
  has the certificate of its own key, generations never change, the active one never goes
  back, and none from the second on is active before control acknowledged it
  (`CredentialRotation.RunAgent`).
- **Fenced attempts.** In every run with crashes a handler starts again only behind a report
  that this is safe, agent updates start at most once, results are replayed unchanged, and
  no claim is requested while one is open (`Operations.RunLoop`).
- **Replay guard.** For every run and all clock readings, exactly when a request launches is
  known (`ReplayGuard.LaunchesExactlyWhen`); every launch used a grant in force; and under a
  clock that never goes back no signed
  grant is launched twice across restarts although expired rows are deleted
  (`ReplayGuard.Serve`).
- **Placement.** There is a plan exactly when enough nodes are suitable and a group has its
  link; planning does not depend on iteration order, admission conserves capacity,
  and translating a two-node profile keeps every workload on its own nodes
  (`Planner.Plan`, `Admission.CheckGenericAdmission`, `LegacyProfile.AdmitLegacyProfile`).
- **Snapshots.** A worklist scan and per-file checks amount to one exact equality between
  the file tree and the manifest, and otherwise name every path that differs
  (`Manifest.Verify`).
- **Publication.** Acknowledged targets never change, channels only move forward, also for
  competing publishers; version chains never return (`Publication.Publish`,
  `Authority.ReplacementsRise`, `PlatformRelease.ChainRises`).

How the model is built. Identifiers that the program sorts are natural numbers in sort
order. Digests are collision free: a digest is modelled by the value it was computed from,
or by a number that stands for it. Outcomes of remote commands, file operations, requests
and clocks are chosen freely or passed in, so that a contract covers every outcome; failed
ones are counted, so that a contract can say what happens without any. Where a protocol is
interrupted, a class records the state after every atomic step in `history`, its `Valid()`
holds of every recorded state, and a crash goes back to any of them. A state file on disk is
a pair of what a reader sees and the set of values that a crash may leave.

Where a property is not true of the code, the condition is stated:

- A switch without failures under changed placement plans publishes the truth if and only if
  the new plans still name every node that anything was started on, whether it leaves, stays
  or moves. No check notices otherwise: the next switch is admissible, meets no failure, and
  reads stopped while a workload runs, or active while a moved workload also runs where it
  was (`PlanChanges.SwitchUnderOtherPlans`, `PlanChanges.UncoveredSwitchMisleads`,
  `PlanChanges.StoppedWhileRunning`, `PlanChanges.ActiveInTwoPlaces`).
- Where renaming onto an existing directory is not reported as "file exists" (Linux says
  "directory not empty"), an otherwise fitting answer is refused if and only if its
  generation is already in place, and a generation left behind by an interrupted staging is
  never staged or active again in any run (`Credentials.CredentialStore.Stage`,
  `CredentialRotation.RunAfterInterruptedStage`; a new agent that gets there is
  `CredentialRotation.InterruptFirstRotation`).
- Starting from a store whose targets hash to their names, they still do after any calls if
  and only if no call was cut short while it wrote a target. A publication that failed can be
  made again if and only if it left both of its files whole or neither, and is otherwise
  blocked for good (`Publication.Publish`, `Publication.RetryIsAccepted`,
  `Publication.BlockedForGood`; single calls that do so are `Publication.CutShortMisnames`
  and `Publication.PartialReceiptBlocks`).
- A grant launched once is launched again if and only if the helper restarted with no launch
  for that request since, a committed transaction in between met a clock reading at or past
  the expiry, the reading is back in the grant's window, no other grant blocks it, and the
  boundaries and both memories let it through (`ReplayGuard.SecondLaunch`; a run that does so
  is `ReplayGuard.ClockSetBackLaunchesTwice`).
- Exclusive plans never share a node with each other, but an ordinary plan may be on the
  same node. Exclusive plans are alone whenever no node meets both an exclusive and an
  ordinary requirement; for requirements that name the nodes they need and have room there
  together, they are alone if and only if no ordinary one prefers a node of theirs
  (`Admission.SolitaryWhenSeparable`, `Admission.PinnedAreSolitary`,
  `Admission.ExclusivePlanMayShare`).

## Model

| member | source | states |
|---|---|---|
| Contracts.OperationsReachTheSameNodes | src/cluster_profiles/switcher.py:923-934 | every operation of a workload reaches the same non-empty set of nodes or aborts, so what is started on a node is also stopped there |
| Contracts.EntryNodeStartsLast | src/cluster_profiles/switcher.py:923-934 | stopping and inference follow the planned nodes from the entry node on; a distributed workload starts and is checked the other way round, its entry node last |
| ClusterWorld.CrashKeepsTruth | src/cluster_profiles/state.py:239-275 | whatever a crash leaves of the state file and the fence, a reader afterwards is not misled |
| ClusterWorld.FencedIsTruthful | src/cluster_profiles/state.py:239-252 | while the fence is durable any remote change is safe, because every load answers quarantined |
| ClusterWorld.QuietEventKeepsTruth | src/cluster_profiles/switcher.py:742-796 | read-only commands never invalidate a publication |
| ClusterWorld.LiveByCommands | src/cluster_profiles/switcher.py:870-882 | what may be running is what was started and not released since, where a release counts only after an accepted stop |
| ClusterWorld.Recorder.Crash | src/cluster_profiles/state.py:239-314 | after a crash behind any step the disk holds one surviving value of each entry and the invariant still holds |
| ClusterWorld.StoppingKeepsTruth | src/cluster_profiles/state.py:22-26 | behind a fence whose loss would leave nothing published, stopping a process misleads nobody |
| ClusterWorld.Recorder.StopByHand | src/cluster_profiles/state.py:22-26 | the operator stops and checks every process that may run, one logged command at a time |
| ClusterWorld.Recorder.RecoverManually | src/cluster_profiles/state.py:22-26 | the documented manual recovery of a fenced transition, step by step, ends with nothing live and the saved state durable and readable, removes the fence only once nothing else can be read after a crash, and misleads nobody on the way |
| StateFile.StateStore.LoadState | src/cluster_profiles/state.py:239-252 | a present fence hides the file, a missing file means stopped |
| StateFile.StateStore.Save | src/cluster_profiles/state.py:254-275 | success means the new state is durable; failure leaves the old or the new state readable, never anything else |
| StateFile.StateStore.BeginTransition | src/cluster_profiles/state.py:277-301 | begun means no crash can lose the fence; an existing fence is refused without effect |
| StateFile.StateStore.FinishTransition | src/cluster_profiles/state.py:303-314 | success makes the final state durable before the fence goes; failure means the fence survives every crash |
| SwitchPlan.OrderIsComplete | src/cluster_profiles/switcher.py:726-740 | both orders visit every workload of a profile exactly once |
| SwitchPlan.StopWalkReversesStartWalk | src/cluster_profiles/switcher.py:726-740 | stopping walks the cluster exactly backwards from starting |
| SwitchPlan.StartsFromTheTop | src/cluster_profiles/switcher.py:726-740 | of two workloads the one started first is on a node no lower than any of the other's, and listed in front of it there |
| SwitchPlan.WorkloadOrder | src/cluster_profiles/switcher.py:726-740 | the nested loops compute the first visits of that walk |
| SwitchPlan.SweepPassesGates | src/cluster_profiles/switcher.py:484-489 | a complete gating sweep takes every workload through health on all nodes and inference on its entry node |
| Switcher.AcceptedStateExplainsLive | src/cluster_profiles/switcher.py:636-698 | an accepted persisted state accounts for every process that may be running |
| Switcher.BootIdsAreMeasured | src/cluster_profiles/switcher.py:707-724 | boot IDs are known exactly when a node was measured and every one has its own, and they are the measured ones |
| Switcher.InadmissibleForCause | src/cluster_profiles/switcher.py:336-440 | with a genuine catalog a switch is refused exactly for an unfinished or changed state, an unmeasured boot ID or a failed admission; fingerprints that differ from the content always refuse |
| Switcher.ResumableIsAccepted | src/cluster_profiles/switcher.py:636-698 | with a genuine catalog exactly the stopped clusters and the unchanged publications are accepted |
| Switcher.StoppedIsResumable | src/cluster_profiles/switcher.py:636-698 | every stopped state that a reader of a truthful store loads can be switched from |
| Switcher.LeftIsResumable | src/cluster_profiles/switcher.py:491-564 | so can every state that a switch leaves active or stopped |
| Switcher.StaleIsRefused | src/cluster_profiles/switcher.py:636-698 | an accepted publication has the content the catalog has now, and the fingerprints of that content |
| Switcher.UnchangedStaysPut | src/cluster_profiles/switcher.py:742-760 | from an accepted state a workload is unchanged exactly when both profiles place it on the same nodes under the same aliases and no node rebooted |
| Switcher.CleanupReachesAll | src/cluster_profiles/switcher.py:884-921 | the cleanup order contains every workload of the target and of the current profile |
| Switcher.GatesCertify | src/cluster_profiles/switcher.py:484-502 | the gates of one run certify the state that the run publishes |
| Switcher.WithdrawalIsTruthful | src/cluster_profiles/switcher.py:446-457 | withdrawing the publication misleads nobody, also half-way through the save |
| Switcher.FenceIsTruthful | src/cluster_profiles/switcher.py:458 | neither does placing the fence |
| Switcher.ProfileSwitcher.Call | src/cluster_profiles/switcher.py:806-835 | a command either is a read or runs under a durable fence |
| Switcher.ProfileSwitcher.RunOn | src/cluster_profiles/switcher.py:837-882 | nodes in order, first failure stops; a completed stop and release leaves no process of the workload on those nodes |
| Switcher.ProfileSwitcher.VerifyDefinition | src/cluster_profiles/switcher.py:837-843 | verification on every start node, without touching any process |
| Switcher.ProfileSwitcher.StartDefinition | src/cluster_profiles/switcher.py:845-851 | processes appear at most on the workload's own nodes, even when a start fails |
| Switcher.ProfileSwitcher.HealthDefinition | src/cluster_profiles/switcher.py:853-859 | health on every start node, without touching any process |
| Switcher.ProfileSwitcher.InferDefinition | src/cluster_profiles/switcher.py:861-868 | inference on the first node of the stop order |
| Switcher.ProfileSwitcher.StopDefinition | src/cluster_profiles/switcher.py:870-882 | success leaves no process of the workload anywhere |
| Switcher.ProfileSwitcher.HealthyRetained | src/cluster_profiles/switcher.py:742-796 | only workloads that nothing distinguishes between the profiles are retained, all of them when no check fails, and only reads were issued |
| Switcher.ProfileSwitcher.Keep | src/cluster_profiles/switcher.py:761-796 | a shared workload is kept only if unchanged and healthy, and an unchanged one is dropped only for a failed check |
| Switcher.ProfileSwitcher.OpenRun | src/cluster_profiles/switcher.py:440-445 | the run opens and only reads follow; what is kept stays on its nodes under its aliases with no node rebooted, and when no check fails everything that does is kept |
| Switcher.ProfileSwitcher.CleanupLive | src/cluster_profiles/switcher.py:884-921 | a cleanup without a failure leaves nothing live, whatever was live before |
| Switcher.ProfileSwitcher.StopLeaving | src/cluster_profiles/switcher.py:465-472 | what may be live stays accounted for after every command; success leaves only retained workloads and issued exactly the stop sweep |
| Switcher.ProfileSwitcher.StopWorkload | src/cluster_profiles/switcher.py:469-472 | a workload is dropped from the live set only after its release was verified everywhere |
| Switcher.ProfileSwitcher.StartArriving | src/cluster_profiles/switcher.py:474-482 | a workload counts as live before its start is issued, so a failed start is accounted for |
| Switcher.ProfileSwitcher.StartWorkload | src/cluster_profiles/switcher.py:477-482 | after a failed start the live set still accounts for what it may have left |
| Switcher.ProfileSwitcher.GateTarget | src/cluster_profiles/switcher.py:484-489 | success means the whole target, retained workloads included, passed its gates |
| Switcher.ProfileSwitcher.Publish | src/cluster_profiles/switcher.py:491-520 | a certified residency becomes the readable final state, or the fence stays |
| Switcher.ProfileSwitcher.Recover | src/cluster_profiles/switcher.py:541-606 | a failed switch reported as stopped leaves nothing live and a state that names its target and error; otherwise readers see degraded; no endpoint is published |
| Switcher.ProfileSwitcher.PersistFailure | src/cluster_profiles/switcher.py:565-596 | what readers then load agrees with the reported status, and the fence is left to speak only after both writes failed |
| Switcher.ProfileSwitcher.Prepare | src/cluster_profiles/switcher.py:440-462 | the publication is durably withdrawn and the fence durable before anything is started or stopped; what is kept running stays on its nodes under its aliases, and when no check fails everything that does is kept |
| Switcher.ProfileSwitcher.Commit | src/cluster_profiles/switcher.py:460-606 | the outcome of the fenced part: active, stopped or degraded, each with what it promises about processes and state |
| Switcher.ProfileSwitcher.Perform | src/cluster_profiles/switcher.py:440-606 | the switch behind the checks: it keeps running what stays put, and a success without failures is exactly the switch's commands |
| Switcher.ProfileSwitcher.Transition | src/cluster_profiles/switcher.py:336-606 | blocked exactly for cause, in terms of content, fingerprints, boot IDs and admission, and planned exactly on an admissible dry run, without effect; active publishes exactly the target with the measured boot IDs after exactly the switch's commands; stopped means nothing runs; what is left active or stopped can be switched again; without a failed command or file operation an admissible switch succeeds |
| SwitchRuns.SwitchProfile | src/cluster_profiles/switcher.py:137-158 | an unknown profile changes nothing; an active report names the resolved target; without failures the switch succeeds unless it was blocked, which with a genuine catalog it is exactly for an unfinished or changed state, an unmeasured boot ID or a failed admission |
| SwitchRuns.SwitchTwice | src/cluster_profiles/switcher.py:336-440 | a new controller's first switch is not blocked, nor is the next one after a switch reported active or stopped; after a degraded one it is |
| SwitchRuns.RecoverAndSwitch | src/cluster_profiles/switcher.py:636-698 | after a manual recovery the next switch is blocked exactly when the cluster was recovered as degraded |
| SwitchRuns.RunSchedule | src/cluster_profiles/switcher.py:440-606 | over all runs with crashes after any step, every load before or after a crash tells the truth |
| SwitchRuns.MutationNeedsTheFence | src/cluster_profiles/switcher.py:446-458 | without the fence a single start or stop makes a readable active profile untrue |
| PlanChanges.SweepEffect | src/cluster_profiles/switcher.py:837-882 | a sweep without a failure adds, removes or keeps exactly the processes on the nodes its plans name |
| PlanChanges.StopUnderOtherPlans | src/cluster_profiles/switcher.py:465-472 | stopping a whole profile whose workloads are all still placed, under changed plans, leaves exactly what is retained if and only if the new plans cover every stopped workload |
| PlanChanges.TargetExplainsWhenCovered | src/cluster_profiles/switcher.py:460-520 | the target accounts for every process after the switch if and only if the new plans cover everything that ran before it, moved workloads included |
| PlanChanges.SwitchedIsTruthfulWhenExplained | src/cluster_profiles/switcher.py:484-520 | a failure-free switch publishes the truth exactly when its target accounts for what runs |
| PlanChanges.SwitchUnderOtherPlans | src/cluster_profiles/switcher.py:460-520 | a failure-free switch between placed profiles under changed plans publishes the truth if and only if the new plans cover everything that was started |
| PlanChanges.PublishedIsTruthful | src/cluster_profiles/switcher.py:440-520 | the world after a failure-free first switch tells the truth, is accepted as a state to switch from, and runs everything where the plans say |
| PlanChanges.UncoveredSwitchMisleads | src/cluster_profiles/switcher.py:636-698 | whenever the new plans do not cover a published profile, the next switch to any target passes every check and publishes an untruth |
| PlanChanges.StoppedWhileRunning | src/cluster_profiles/switcher.py:923-934 | one workload planned on another node: the switch to an empty profile reads stopped while it runs |
| PlanChanges.ActiveInTwoPlaces | src/cluster_profiles/switcher.py:923-934 | the same workload moved by the plans: the switch reads active while it also runs on the node it came from |
| Credentials.PrepareTrailIsSafe | agent/src/vonk_agent/client.py:331-383 | every intermediate store of a new request can be opened |
| Credentials.PublishTrailIsSafe | agent/src/vonk_agent/client.py:657-678 | every intermediate store of a publication can be opened and never goes back |
| Credentials.ClearTrailIsSafe | agent/src/vonk_agent/client.py:614-634 | so can every intermediate store of clearing an enrollment |
| Credentials.RenameIsSafe | agent/src/vonk_agent/client.py:431-513 | renaming a complete generation with the certificate of its key into place keeps all others and leaves an openable store |
| Credentials.AcceptedIsStageable | agent/src/vonk_agent/client.py:431-513 | an answer is accepted exactly when node, key, serial and purpose agree with the pending rotation, it is newer than what is active, and its place is free or reported as taken by the same |
| Credentials.AcceptedIsInstallable | agent/src/vonk_agent/client.py:515-612 | a first credential is accepted exactly when node, key, serial and purpose agree with the pending enrollment and it is authentic, or when the same one is active |
| Credentials.HistoryNeverContradicts | agent/src/vonk_agent/client.py:680-726 | over any history generations are unchanged and the active one never decreases |
| Credentials.CredentialStore.Follow | agent/src/vonk_agent/client.py:1018-1056 | file operations happen in order up to the first failure |
| Credentials.CredentialStore.PendingRequest | agent/src/vonk_agent/client.py:385-429 | answered exactly when the metadata has its own key and request |
| Credentials.CredentialStore.PreparePending | agent/src/vonk_agent/client.py:331-383 | a matching request is reused, a conflicting one refused, otherwise a new one is complete when done |
| Credentials.CredentialStore.PlaceGeneration | agent/src/vonk_agent/client.py:457-496 | the generation is in place and verifies, and it was either new or already there and identical; a temporary directory stays behind only when its removal failed too |
| Credentials.CredentialStore.Stage | agent/src/vonk_agent/client.py:431-513 | without a failing file operation it is done exactly when node, key, serial and generation of the answer fit the request and its place, and the generation then holds the pending key, the issued certificate and its document; where an existing directory is not reported, refused exactly when the generation is already in place; the pointer is its last step |
| Credentials.CredentialStore.InstallInitial | agent/src/vonk_agent/client.py:515-612 | without a failing file operation the first generation becomes active exactly from a matching enrollment request, and repeating it finishes the cleanup |
| Credentials.CredentialStore.InstallAnswer | agent/src/vonk_agent/client.py:515-612 | the fresh path: accepted exactly for a matching pending enrollment, ending in the published store with the pending key and the issued certificate |
| Credentials.CredentialStore.RecoverInitialEnrollment | agent/src/vonk_agent/client.py:614-634 | finishes exactly an interrupted enrollment of this node and nothing else |
| Credentials.CredentialStore.PublishActive | agent/src/vonk_agent/client.py:657-678 | only the staged generation is published, along the safe steps |
| Credentials.CredentialStore.Open | agent/src/vonk_agent/client.py:680-726 | reopening after any crash is never refused and only removes temporary directories |
| Credentials.RedoingPublicationConverges | agent/src/vonk_agent/main.py:713-722 | from every interruption the store differs from the published one only by the pointer and request that publishing clears, and the pointer is left only by the first step |
| Credentials.RedoingClearingConverges | agent/src/vonk_agent/client.py:614-634 | an interrupted enrollment cleanup is recognised and finished with the same result |
| CredentialRotation.CredentialAgent.RotateCredentials | agent/src/vonk_agent/main.py:713-737 | at no step is a generation from two on active before its acknowledgement; without a fault a round is done exactly when it can be; done means the staged or issued generation is the active one; an answer with a stranded generation never succeeds |
| CredentialRotation.CredentialAgent.AnswerRequest | agent/src/vonk_agent/main.py:723-737 | with nothing staged, a due or pending rotation succeeds without faults exactly for an accepted and acknowledged answer |
| CredentialRotation.CredentialAgent.Redeem | agent/src/vonk_agent/main.py:731-736 | an accepted answer is staged, acknowledged and then active, in this order |
| CredentialRotation.CredentialAgent.EnrollOnce | agent/src/vonk_agent/main.py:1030-1079 | without a fault an agent without credentials enrolls exactly when its request is answered by a fitting first certificate, and the store is then exactly the installed one |
| CredentialRotation.CredentialAgent.RestartAgent | agent/src/vonk_agent/main.py:1240-1273 | a restart is never refused and leaves a matching request or none |
| CredentialRotation.RunAgent | agent/src/vonk_agent/main.py:713-737 | over all schedules with crashes: each store differs from the one before by one file operation; in every store each generation is complete, its certificate is for its key and for the node and serial of its document, the pointers name generations in place, and a pending request has its key; every store opens, the active generation never decreases, activation is acknowledged first, and what nothing points to stays so where an existing directory is not reported |
| CredentialRotation.RunAfterInterruptedStage | agent/src/vonk_agent/client.py:484-505 | every acceptable answer can be interrupted behind its rename; the same answer is then accepted if and only if an existing directory is reported as such; otherwise its generation is never staged or active in any later state |
| CredentialRotation.InterruptFirstRotation | agent/src/vonk_agent/client.py:484-505 | a new agent whose first rotation is interrupted so, which only a failing file operation can prevent |
| CredentialRotation.ResumePublication | agent/src/vonk_agent/main.py:713-737 | what a restart and the next round reach from each point where a publication can stop, and that they do reach it without faults: the same publication while the pointer is there, another generation for the old request, or nothing more to do |
| AgentAttempts.IrreversibleStartsOnce | agent/src/vonk_agent/operations.py:498-499 | an agent update or rollback handler starts at most once in any run |
| AgentAttempts.FreshMayBegin | agent/src/vonk_agent/state.py:116-168 | a claim may begin exactly when its fence is new, its attempt later than every one at its operation, and all attempts are finished and acknowledged |
| AgentAttempts.RestartsAreReportedSafe | agent/src/vonk_agent/operations.py:191-229 | between two starts of a claim an inspection found that it only reads, or its subsystem reported it safe |
| AgentAttempts.ReplaysAreIdentical | agent/src/vonk_agent/operations.py:187-190 | once a result is recorded every execution of the claim returns it |
| AgentAttempts.AcknowledgedIsSettled | agent/src/vonk_agent/state.py:279-306 | an acknowledged attempt stays in the table with the result recorded for it |
| AgentAttempts.SettledWhenResolved | agent/src/vonk_agent/main.py:637-659 | when nothing is unresolved every begun attempt was acknowledged |
| AgentAttempts.StartStep | agent/src/vonk_agent/operations.py:269-277 | a start that an inspection allowed keeps the discipline of the log |
| AgentAttempts.AgentStateStore.LookupExact | agent/src/vonk_agent/state.py:314-335 | a stored attempt is returned only for exactly its own claim |
| AgentAttempts.AgentStateStore.Recover | agent/src/vonk_agent/state.py:337-349 | returns the unresolved attempt of the given stage if there is one, and it is the only unresolved one |
| AgentAttempts.AgentStateStore.Begin | agent/src/vonk_agent/state.py:116-168 | accepted exactly for a known claim or one with a fresh fence, a later attempt number and nothing unresolved; begun attempts never share a fence and go up |
| AgentAttempts.AgentStateStore.Finish | agent/src/vonk_agent/state.py:248-277 | a terminal result is recorded once; the same one again changes nothing and another is refused |
| AgentAttempts.AgentStateStore.Acknowledge | agent/src/vonk_agent/state.py:279-306 | only the recorded result of the matching attempt can be acknowledged |
| Operations.Agent.Execute | agent/src/vonk_agent/operations.py:170-289 | a new claim runs once exactly when it is fresh and in time; an interrupted one ends as its kind and the report of its subsystem demand and is started again only if it reads or is reported safe; whatever is returned is on record, and a foreign claim has no effect |
| Operations.Agent.Resume | agent/src/vonk_agent/operations.py:191-289 | an interrupted claim is finished, parked, retried or refused by what its subsystem reports, and restarted only on a retry in time |
| Operations.Agent.Retry | agent/src/vonk_agent/operations.py:230-289 | a retry past its deadline is settled as failed without starting the handler |
| Operations.Agent.Dispose | agent/src/vonk_agent/operations.py:193-229 | each disposition has its own ending, and only a safe one in time starts the handler |
| Operations.UpdatesAreParked | agent/src/vonk_agent/operations.py:498-499 | an interrupted update or rollback always waits for the operator, whatever is reported |
| Operations.InterruptedEndsAsReported | agent/src/vonk_agent/operations.py:191-289 | how every interrupted claim ends, by its kind and what its subsystem reports |
| Operations.Agent.Inspect | agent/src/vonk_agent/operations.py:463-527 | safe to retry is exactly what only reads, or what is neither update nor rollback and is reported safe; the report is logged with the disposition it justifies |
| Operations.Agent.ExecuteNew | agent/src/vonk_agent/operations.py:230-289 | a new claim raises without effect exactly when it conflicts with the table or is late; otherwise its handler runs once |
| Operations.Agent.Submit | agent/src/vonk_agent/main.py:708-711 | only a delivered result is acknowledged |
| Operations.Agent.ExecuteAndSubmit | agent/src/vonk_agent/main.py:653-658 | an execution that returned and was delivered leaves the attempt acknowledged with its result |
| Operations.Agent.RunOnce | agent/src/vonk_agent/main.py:637-659 | a pending result is delivered first, then the active attempt is brought to its end, and only a settled agent asks for a claim and executes it; what ends and is delivered is on record as acknowledged; a failed heartbeat shutdown disables the agent |
| Operations.Agent.ExecuteWithHeartbeat | agent/src/vonk_agent/main.py:660-693 | a heartbeat that cannot be stopped turns the execution into a failure and is remembered |
| Operations.RunLoop | agent/src/vonk_agent/main.py:637-711 | in every state of every run with crashes a handler starts again only behind a report that it is safe and never once its result is recorded, attempts begin one at a time with fences of their own, returns are recorded and claims requested only when settled; no update handler starts twice, and every return of a recorded claim is its result |
| ReplayGuard.PurgeIsExact | agent/src/vonk_agent/package_helper.py:1256-1259 | deleting by whole seconds deletes exactly the expired rows |
| ReplayGuard.CommitTransacts | agent/src/vonk_agent/package_helper.py:1255-1282 | a committed transaction removes exactly the expired rows and inserts the grant exactly when none of the others has its request ID or triple |
| ReplayGuard.RowsAreStanding | agent/src/vonk_agent/package_helper.py:1255-1282 | a row is present exactly when its grant was consumed and no committed transaction since met a reading at or past its expiry |
| ReplayGuard.SeenAreRecalled | agent/src/vonk_agent/package_helper.py:1367-1384 | a request is remembered exactly when it was launched since the last restart |
| ReplayGuard.OnlyGrantsInForce | agent/src/vonk_agent/package_helper.py:1226-1286 | whatever is consumed or launched is a genuine grant under the configured key, within its lifetime of at most 900 seconds |
| ReplayGuard.RowsAreGranted | agent/src/vonk_agent/package_helper.py:1226-1286 | every row of the table comes from a request of the agent with a grant that was in force |
| ReplayGuard.LaunchesExactlyWhen | agent/src/vonk_agent/package_helper.py:1362-1384 | in every run and for all readings, a request launches exactly when the agent asks with a grant in force and room is left, its request and fence were not launched since the last restart, and no earlier grant blocks it |
| ReplayGuard.SecondLaunch | agent/src/vonk_agent/package_helper.py:1226-1286 | the exact condition under which a launched grant is launched again |
| ReplayGuard.LaunchesDoNotOverlap | agent/src/vonk_agent/package_helper.py:1226-1286 | under a steady clock, launches that share a request ID or triple are separated by the expiry of the first |
| ReplayGuard.GrantLaunchesOnce | agent/src/vonk_agent/package_helper.py:1362-1384 | under a steady clock no two launches use the same grant |
| ReplayGuard.PackageHelper.Authorize | agent/src/vonk_agent/package_helper.py:1226-1286 | denied exactly for a grant that is not in force; otherwise the verdict and the effect on the table at any clock reading: expired rows go, others stay, and none shares the request ID or triple of a consumed grant; rows stay within capacity |
| ReplayGuard.PackageHelper.Handle | agent/src/vonk_agent/package_helper.py:1362-1384 | launches and memory follow the transition of the run for any request at any clock reading, and only a grant in force that the agent asks for is consumed or launched |
| ReplayGuard.Serve | agent/src/vonk_agent/package_helper.py:1362-1384 | over any requests, restarts and readings every launch used a genuine grant under the configured key within its lifetime of at most 900 seconds, every row comes from such a grant, and the helper launches what the run prescribes; under a clock that never goes back no grant is launched twice |
| ReplayGuard.ClockSetBackLaunchesTwice | agent/src/vonk_agent/package_helper.py:1255-1282 | a run with a restart and a clock set back that launches one grant twice |
| Framing.FrameHelperMessage | agent/src/vonk_agent/package_helper_protocol.py:335-338 | framed exactly when within the bound, with a length prefix that decodes to the length |
| Framing.LengthRoundTrip | agent/src/vonk_agent/package_helper_protocol.py:335-338 | decoding the big-endian prefix undoes encoding it |
| Framing.HeaderRoundTrip | agent/src/vonk_agent/package_helper_protocol.py:352-355 | encoding undoes decoding, so headers and lengths correspond one to one |
| Framing.Connection.ReceiveExact | agent/src/vonk_agent/package_helper_protocol.py:366-375 | however the stream is cut, exactly the next octets are returned, or a refusal when there are fewer |
| Framing.Connection.ReceiveHelperMessage | agent/src/vonk_agent/package_helper_protocol.py:341-363 | the outcome depends only on the octets, and nothing behind the message is read |
| Framing.DecodedIsTheFramed | agent/src/vonk_agent/package_helper_protocol.py:335-375 | a stream yields a message if and only if it starts with that message's frame |
| Framing.TruncatedIsRefused | agent/src/vonk_agent/package_helper_protocol.py:366-375 | every proper prefix of a frame is refused |
| Framing.SendAndReceive | agent/src/vonk_agent/package_helper_protocol.py:335-375 | sending and receiving returns the message and leaves what follows unread |
| Placement.RejectionsExplain | src/cluster_profiles/placement.py:114-129 | the objections are exactly those that apply, and there is none exactly when the node meets every requirement |
| Placement.LeadersAreUnique | src/cluster_profiles/placement.py:132-135 | only one selection of the given size precedes all other candidates |
| Placement.PlacedAreFirst | src/cluster_profiles/placement.py:110-139 | a plan names the first suitable nodes by preference rank and node ID, and a group shares an accepted link |
| Placement.PrecedesByPreference | src/cluster_profiles/placement.py:132 | listed nodes come first in their listed order, then the others by ID |
| Placement.PlanExactlyWhen | src/cluster_profiles/placement.py:78-180 | when topology, observations and preferences fit the fleet there is a plan exactly if enough nodes are suitable and, for a group, the first of them share an accepted RDMA link; too few is exactly the refusal for want of nodes |
| Placement.PreferredAreChosen | src/cluster_profiles/placement.py:100-137 | a requirement gets exactly its preferred nodes in order if and only if all of them are suitable |
| Placement.PlannedAsPreferred | src/cluster_profiles/placement.py:100-139 | suitable preferred nodes with an accepted link are what the plan names, in their order |
| Placement.OrderOfObservations | src/cluster_profiles/placement.py:93-99 | reordering the observations changes nothing that planning looks at |
| Planner.Collect | src/cluster_profiles/placement.py:93-97 | accepted exactly when no node is observed twice |
| Planner.RankPreferences | src/cluster_profiles/placement.py:100-108 | accepted exactly when every preferred node is in the fleet |
| Planner.Screen | src/cluster_profiles/placement.py:110-131 | the eligible nodes are exactly the suitable ones, each node with its reasons |
| Planner.SortIsRanked | src/cluster_profiles/placement.py:132 | sorting by key equals repeatedly taking the node that precedes all others |
| Planner.Plan | src/cluster_profiles/placement.py:78-180 | the loops compute the order-free outcome: a plan exactly when enough nodes offer what is required and a group has its link, naming the first of them by preference with a reason for every node; otherwise the refusal that applies, duplicate observations included |
| Planner.PlanTwice | src/cluster_profiles/placement.py:78-180 | two calls with fleet and observations in different orders agree on nodes and reasons |
| Admission.CheckGenericAdmission | src/cluster_profiles/admission.py:240-266 | capacity is conserved, and there are no errors exactly when every requirement got a plan |
| Admission.AdmissionConserves | src/cluster_profiles/admission.py:247-264 | per node, plans plus remainder equal the initial memory and disk, so the clamp never acts, and exclusive plans never meet |
| Admission.ClaimsAreDisjoint | src/cluster_profiles/admission.py:255-262 | no two exclusive plans share a node |
| Admission.PlansSuit | src/cluster_profiles/admission.py:250-262 | every plan is on nodes that met its requirement in the first observations |
| Admission.SolitaryWhenSeparable | src/cluster_profiles/admission.py:250-262 | exclusive plans are alone on their nodes when no node meets both an exclusive and an ordinary requirement |
| Admission.PinnedAreGranted | src/cluster_profiles/admission.py:250-262 | requirements that name the nodes they need and have room there together all get those nodes, without errors |
| Admission.PinnedAreSolitary | src/cluster_profiles/admission.py:250-262 | of such requirements the exclusive ones are alone if and only if no ordinary one prefers a node of theirs |
| Admission.ExclusivePlanMayShare | src/cluster_profiles/admission.py:255-262 | an exclusive plan can be given a node that an ordinary plan uses |
| Admission.NoErrorsWhenAllPlanned | src/cluster_profiles/admission.py:250-266 | plans and errors account for every requirement in turn |
| LegacyProfile.PreferredIsHome | src/cluster_profiles/profile_compat.py:23-38 | preferences repeat exactly when an alias lists a workload twice, and are its legacy nodes otherwise |
| LegacyProfile.AdaptLegacyProfile | src/cluster_profiles/profile_compat.py:13-49 | translated exactly when both aliases exist, two nodes are active and no placement is duplicated; each requirement is the legacy placement |
| LegacyProfile.ExclusiveIsAlone | src/cluster_profiles/profile_compat.py:32 | an exclusive workload shares its nodes with no other |
| LegacyProfile.MeaningIsPreserved | src/cluster_profiles/profile_compat.py:13-49 | admitting the translation places every workload on exactly its legacy nodes |
| LegacyProfile.AdmitLegacyProfile | src/cluster_profiles/profile_compat.py:13-49 | translation followed by admission has no errors and keeps every workload at home, in alias order |
| Manifest.Examine | tools/model_manifest.py:288-327 | one entry is surplus, unsafe or a directory to visit exactly as the snapshot rules say |
| Manifest.ScanSnapshot | tools/model_manifest.py:268-330 | the worklist finds exactly the unexpected and the unsafe entries among those reachable through directories it opened |
| Manifest.OpenManifestFile | tools/model_manifest.py:253-265 | a file opens exactly when every directory on its path does; missing means that some component is absent |
| Manifest.CheckFile | tools/model_manifest.py:370-404 | verified means present with the manifest's size and digest; missing, changed and unsafe each have their own condition |
| Manifest.CleanMeansExact | tools/model_manifest.py:333-415 | a clean scan and verified files leave room for nothing else in the tree |
| Manifest.ExactIsClean | tools/model_manifest.py:333-415 | an exact snapshot raises no finding |
| Manifest.ToldStep | tools/model_manifest.py:360-404 | each file is reported under its own path as missing, changed or obstructed, or counted |
| Manifest.ValidateManifest | tools/model_manifest.py:213-250 | accepted exactly for distinct safe paths with the declared count and sums |
| Manifest.Verify | tools/model_manifest.py:333-415 | ok if and only if the tree is the manifest's files and their ancestor directories and nothing else; otherwise the report holds exactly the missing, changed, unsafe and surplus paths; the totals are those of the intact files |
| Publication.LocalPublicationStore.PublishTarget | src/cluster_profiles/platform_publication.py:138-199 | the store afterwards for every way the writes and the cleanup can end, a receipt that is whole although its write failed included; acknowledged exactly when its name and receipt fit and it is new and fully written or identical to what is stored; repeating it changes nothing |
| Publication.LocalPublicationStore.PublishChannel | src/cluster_profiles/platform_publication.py:204-284 | a channel changes only to a stored target with a matching digest and a higher version |
| Publication.RetryIsAccepted | src/cluster_profiles/platform_publication.py:178-196 | a publication can be made again exactly when the call left both files whole or neither |
| Publication.BlockedForGood | src/cluster_profiles/platform_publication.py:178-196 | a publication of which only a part is stored is refused after any later calls |
| Publication.CutShortMisnames | src/cluster_profiles/platform_publication.py:61-79 | one call whose target is cut short leaves a target that does not hash to its name |
| Publication.PartialReceiptBlocks | src/cluster_profiles/platform_publication.py:191-196 | one call that leaves a part of its receipt blocks the target, whatever is called later |
| Publication.MisnamedForGood | src/cluster_profiles/platform_publication.py:138-199 | a target that does not hash to its name stays so in every later state |
| Publication.Publish | src/cluster_profiles/platform_publication.py:138-284 | over any calls with failures, targets and receipts stay, channels only advance, and from matching names and contents they still match if and only if no call was cut short |
| Authority.StepIsSound | src/cluster_profiles/platform_authority_client.py:186-230 | one request of one publisher keeps the version order, because a matching entity tag stands for one document |
| Authority.ReplacementsRise | src/cluster_profiles/platform_authority_client.py:186-230 | in every interleaving each replacement strictly raises the targets version, which is never below one, and success is reported only for a document the channel held |
| Authority.LonePublisherSucceeds | src/cluster_profiles/platform_authority_client.py:186-230 | a publisher that nobody interferes with is confirmed, unless the channel holds another document that is as new |
| Authority.OneWinsTheRace | src/cluster_profiles/platform_authority_client.py:213-224 | of two publishers that read the same state the second to write fails |
| Maturity.LawfulMeansBeginning | src/cluster_profiles/catalog.py:216-220 | the step rules admit exactly the non-empty beginnings of planned, prepared, verified, (rejected, verified)*, accepted |
| Maturity.ValidateMaturityHistory | src/cluster_profiles/catalog.py:373-426 | accepted exactly for such a beginning with correction data on the steps after a rejection and nowhere else |
| Maturity.PathsDiffer | src/cluster_profiles/catalog.py:305-313 | different stages or correction positions never share a report path |
| Maturity.ValidateReports | src/cluster_profiles/catalog.py:448-464 | accepted exactly when every report has its canonical path and names the report before it |
| Maturity.ReportsFormAChain | src/cluster_profiles/catalog.py:429-464 | the reports of a valid history of any length are pairwise distinct and chained |
| PlatformRelease.Predecessors | src/cluster_profiles/platform_release.py:404-441 | accepted exactly when every predecessor is strictly older, named by its own digest, and no name or digest repeats |
| PlatformRelease.FirstDifferenceDecides | src/cluster_profiles/platform_release.py:480-486 | versions are totally ordered by the first component in which they differ |
| PlatformRelease.Compatibility | src/cluster_profiles/platform_release.py:284-322 | no reason is given exactly for compatible updates, and each reason is given exactly for its cause in the published agents, protocol ranges, predecessors and versions |
| PlatformRelease.AgentForIsFirst | src/cluster_profiles/platform_release.py:286-289 | the entry that counts for an architecture is the first one |
| PlatformRelease.UpdateRises | src/cluster_profiles/platform_release.py:284-322 | a compatible update never lowers the version and raises it when the build changes |
| PlatformRelease.ChainRises | src/cluster_profiles/platform_release.py:268-322 | in a chain of build changes the version strictly rises, so no target recurs |
| PlatformRelease.PredecessorInduction | src/cluster_profiles/platform_release.py:404-441 | the authorised-predecessor relation is well founded |
| PullProtocol.EveryRunIsSafe | agent/src/vonk_agent/oci.py:114-121 | in every interleaving the count equals the pulls in flight and descriptors are closed only with none in flight |
| PullProtocol.NothingIsClosedUnderAPull | agent/src/vonk_agent/oci.py:150-227 | no descriptor of a pull in flight is ever closed |
| PullProtocol.NothingIsClosedTwice | agent/src/vonk_agent/oci.py:114-121 | every descriptor is closed at most once |
| PullProtocol.NoPullAfterClose | agent/src/vonk_agent/oci.py:229-240 | once a close has started no pull begins |
| PullProtocol.OpenClientAdmits | agent/src/vonk_agent/oci.py:229-235 | a pull is admitted with all descriptors exactly while no close has started |
| PullProtocol.ClosedHasReleasedAll | agent/src/vonk_agent/oci.py:114-121 | once closed and no close is under way any more, every descriptor has been released |
| PullProtocol.CloseCompletes | agent/src/vonk_agent/oci.py:114-121 | a close that has taken the descriptors finishes after releasing them in order |

## Left out

- Placement plans that change between switches: `RunSchedule` keeps them fixed; what a change does is stated in `PlanChanges`, for plans that place every workload (others make the program abort).
- The switch lock and breaking a stale one: one controller at a time is assumed.
- A failing unlink is taken to mean that the fence was not removed, as POSIX has it.
- Preparing a profile (`prepare_profile`) and the standalone health query: read-only variants of what is modelled.
- Texts of diagnostics, reasons, reports and log lines, including the sorting of admission errors and report tuples.
- TLS, HTTP, sockets, processes, SSH and systemd: only their success or failure appears.
- SHA-256, Ed25519 and X.509: a digest determines its input and a signature is genuine or not.
- JSON and TOML parsing, schemas and regular expressions: the model starts from typed values.
- File ownership, modes, links and descriptors, except where an entry is special or cannot be opened.
- Heartbeat timing, progress records and cancellation directives: only a heartbeat that cannot be stopped is modelled.
- The cleanup of the registry client when it is garbage collected (`__del__`): no thread can use it then.
- Operations.Agent.RunOnce: credential rotation inside the round is modelled in `CredentialRotation` and not repeated here.
- Operations.Agent.Inspect: the reports of the release, package and workload subsystems are arbitrary.
- StateFile.StateStore.LoadState: the second look at the fence after reading the file is not modelled, because only one controller runs at a time.
- CredentialRotation.CredentialAgent.EnrollOnce: consuming the enrollment token, and a seed certificate without its key, are not modelled.
- CredentialRotation.CredentialAgent.RestartAgent: a matching request is promised for the metadata of this node; metadata of another node is left as it is found.
- ReplayGuard.PackageHelper.Authorize: expiries beyond the range of the calendar raise in the program and are not modelled.
- Manifest.ScanSnapshot: a failing stat of an entry in a directory that opens and lists is not modelled, nor is a root that opens but cannot be listed.
- Publication of targets through the remote authority (`publish_target`): a single conditional create.
- Manifest.ValidateManifest: the fixed file names, shard names and provenance fields are not modelled.
- Placement digests and admission of two-node profiles (`check_admission`): field-by-field checks.
- Timestamps and contents of maturity evidence: only states, corrections, paths and predecessors are modelled.
- Tar encoding, fabric validation, tool normalisers, health grading and the web client: easy field-by-field code.
