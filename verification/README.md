# Executions, credentials and activation of n8n: a model in Dafny

This project models four connected parts of the n8n server and three smaller ones, and
proves what holds of them over all inputs, all runs and all interleavings.

- **Executions.** `ExecutionRegistry` has the registry of active executions of one process
  as a value, `RegistryEffects` what exactly changes each part of it, `RegistryRuns` what holds over
  all its runs, and `ActiveExecutions` the classes
  with their mutable entries, reservations and captured handlers, each method tied to a step of
  the registry. `ResumeProtocol` is the whole system as a transition system: execution rows, any
  number of processes with their registries, and runs that start, resume, wait, finish and hand
  their output to a parent, one step per stretch between two awaits. `ResumeSafety` proves
  ownership of the running phase and refines every process's share to the registry, `ResumeRows` what
  exactly changes a row, `ResumeSettling` who settles whose promise and which children hand over,
  `ResumeOutputs` which output of which child that is, `ResumeHandoff` what a parent resumes with, and
  `ResumeRaces` gives runs that show where the promises end.
  `WaitTracker` has the timers that wake executions, as a class and over all runs.
- **Credentials.** `CredentialTypes` has the `extends` graph and the walk over an array that
  grows underfoot. `CredentialsOverwrites` has the table that is merged in place, the lookup, and
  the filling-in of a credential. `CredentialRepair` has the repair of node references with its
  two caches.
- **Activation.** `TriggerLeadership` has triggers in memory over several instances,
  `WebhookRegistration` the entering of webhooks with rollback, `ActivationQueue` the retries.
- **Smaller parts.** `Deadlines`, `KeyPaths`, `Deduplication`.

## Assumptions

- An update of an execution row that requires a status is one atomic step; so is every other
  single statement of the database. Upsert, insert and delete of a table do what they say.
- Code between two awaits runs undisturbed. A promise settles in one step and its handler runs in
  a later one. `throttle` returns when there is capacity; `release` gives back what is held.
- A row's `period`, `base`, `written` and `crossed`, a registry entry's `handled`, and the lists
  of wins and outputs in `ResumeProtocol` are there to state what happened; no step's effect on the
  program's own state depends on them.
- A run registers its status as waiting in its process before it saves its row as waiting, and saves
  its row before it finalizes. (A run that fails with an error of the engine itself does the last two
  the other way round; one refused for its credentials finalizes without a result.)
- Credential ids are unique. The `extends` lists of known and of loaded credential types agree.
- The deduplicator splits the keys it is given into new and processed ones.

## What turned out otherwise

Where the code does not keep what one would expect of it, the model keeps to the code, a lemma gives
a run or an input that shows it, and the exact condition is proved where it can be stated as one.

- A resume compares the status only, so data read in an earlier waiting period can win in a later
  one (`EarlierReadsCanWin`), and a child's write can land in a later one (`CrossingWritesReplaceTheStack`).
  A child may wake its parent though it wrote in an earlier period, or nothing at all as the parent did
  not wait yet (`LateChildrenWakeWithoutOutput`, `EarlyChildrenWakeWithoutOutput`); the parent then goes
  on without an output, unless another child wrote (`ParentResumesWithAChildsOutput`). A webhook puts
  its own data in the output's place (`WebhooksReplaceAChildsOutput`).
- `finalizeExecution` goes by the execution id, so a run superseded before it got there settles its
  successor's promise (`FinalizeSettlesWhom`, `LateFinalizeForgetsSuccessor`). If the successor is a child,
  its parent is then never woken by it (`HandsOffExactlyWhenFirst`, `LateFinalizeSilencesChild`). And a run
  stopped while waiting but unsettled never gives its capacity back (`LostExactlyWhenStranded`,
  `StrandedByWhat`).
- Stepping down clears the timers of waiting executions but keeps their entries, so taking over again
  does not arm them (`DeadByStepdownOnly`, `SilentFromThenOn`).
- A cached failed reference hands its name on (`CachedAgreesExactlyWhen`, `OrderCanMatter`).
- Stepping down amid an add leaves a follower with triggers (`StepDownSafeExactlyWhenIdle`), and a
  takeover amid an activation begins none of its own (`TakeoverActivatesExactlyWhen`,
  `BusyTakeoverLosesTriggers`).
- Entering a webhook is an upsert, so rolling back can lose another workflow's row
  (`OthersUnchangedUnlessColliding`).
- An attempt to reactivate that fails, early or late, after its workflow was queued anew leaves two
  timers (`TimersKnownUnlessOvertaken`), and the comment that attempts go on indefinitely holds only
  while the workflow is in the queue when an attempt fails (`RetriedExactlyWhenQueued`).
- Every run rewrites the start of its execution, so an execution resumed twice is not stopped its timeout
  after it was first started, as the comment in `runMainProcess` has it (`StoppedAfterFirstStartExactlyWhen`,
  `SecondResumeMovesStop`).
- With two parents of a credential type, merging in place and looking up order them differently
  (`MergingHarmlessExactlyWhen`, `SiblingParentsDisagree`).

## Model

| member | source | states |
|---|---|---|
| `ResumeSafety.OneRunAtATime` | packages/cli/src/active-executions.ts:96-123 | in every interleaving of any number of processes at most one run works on an execution, and its row is not waiting meanwhile |
| `ResumeSafety.ResumesExactlyAtTransitions` | packages/cli/src/active-executions.ts:101-118 | a row goes from waiting to running if and only if a resume goes through: no other write of `running` ever meets a waiting row |
| `ResumeSafety.OneResumePerWait` | packages/cli/src/active-executions.ts:109-118 | over any run of the system resumes and waiting-to-running transitions are equally many, and at most one per waiting period |
| `ResumeSafety.AlwaysSafe` | packages/cli/src/active-executions.ts:64-161 | ownership and the place of every run in its process's registry are kept by every step of every run of the system |
| `ResumeSafety.RegistersAmongWaiting` | packages/cli/src/active-executions.ts:125-137 | whoever registers a run finds the earlier runs of the execution in that process gone to wait, or over |
| `ResumeSafety.SystemRunsAreRegistryRuns` | packages/cli/src/active-executions.ts:64-161 | every process's share of a run of the system is a run of the registry, meeting all the registry asks for |
| `ResumeSafety.HandlersSpareSuccessors` | packages/cli/src/active-executions.ts:140-156 | no settlement handler of a superseded run removes the run that replaced it, however processes interleave |
| `ResumeSafety.CapacityConservedEverywhere` | packages/cli/src/active-executions.ts:68-123 | in every process the capacity in use is that of pending calls of `add` and of registered runs still to be handled, and within the limit |
| `ResumeSafety.FinalizeSettlesWhom` | packages/cli/src/active-executions.ts:223-242 | finalizing settles another run's promise if and only if that run took over the execution in the same process; a finished run never does |
| `ResumeHandoff.StepHandsOver` | packages/cli/src/workflow-helpers.ts:307-339 | every step keeps: within a waiting period, what the row holds and what is read of it is the period's own stack, with the output last written by a child of that period on top, if one wrote |
| `ResumeHandoff.AlwaysHandsOver` | packages/cli/src/workflow-helpers.ts:307-339 | the same over every run of the system |
| `ResumeHandoff.WriteParentHandsOver` | packages/cli/src/workflow-helpers.ts:334-338 | the write that is not atomic with its check keeps the above, whatever became of the row in between |
| `ResumeHandoff.WinHandsOver` | packages/cli/src/active-executions.ts:101-118 | what the winner of the compare-and-set loaded is what it read, with its own data on top, and what it read fits the row it met |
| `ResumeHandoff.ParentResumesWithAChildsOutput` | packages/cli/src/wait-tracker.ts:147-167 | whoever wins within one waiting period without data of its own, the parent starts with its stack unchanged below, and on top exactly if a child had written in the period before the read, the last such output: that of the last pass of the node a finished child of its own ended with; a winning child that wrote in the period is such a case; a winner with its own data has that on top, whatever children wrote |
| `ResumeHandoff.AnyoneResumesWithThePeriodsStack` | packages/cli/src/wait-tracker.ts:97-129 | so nobody resumes within the period with any other stack than its own, or that with the winner's own data, or else a finished child's final output, on top |
| `ResumeOutputs.LastPassCounts` | packages/cli/src/workflow-helpers.ts:24-57 | a result whose last node made several passes gives the output of the last pass; in manual mode exactly what is pinned to the node, if anything is |
| `ResumeOutputs.FinalOutputIs` | packages/cli/src/workflow-helpers.ts:24-57 | the output of a result is that one and no other |
| `ResumeOutputs.NoOutputExactlyWhen` | packages/cli/src/workflow-helpers.ts:24-57 | and there is none if and only if no node was last, or it has no run data, or its last pass has none and no pin stands in |
| `ResumeOutputs.AlwaysTraced` | packages/cli/src/workflow-helpers.ts:307-339 | over every run of the system the outputs kept by parent are exactly the final outputs of finished runs of its children |
| `ResumeOutputs.FinishedExactlyWhenSucceeded` | packages/cli/src/wait-tracker.ts:110-112 | a row is marked finished if and only if a run of the execution succeeded, and nobody starts a finished one again |
| `ResumeOutputs.WokenByOwnChildren` | packages/cli/src/wait-tracker.ts:147-167 | in every run of the system, whoever is resumed by a child is that finished child's parent |
| `ResumeOutputs.ChildPutsItsOutputOnTop` | packages/cli/src/workflow-helpers.ts:312-333 | a child that reads its waiting parent puts its own final output in place of the top node's input and keeps the rest of the stack; without an output, or if the parent does not wait or has no stack, it writes nothing |
| `ResumeOutputs.WritePutsTheStackBack` | packages/cli/src/workflow-helpers.ts:335-338 | the write puts exactly that stack into the parent's row, and leaves its status, finish and parent, every other row and every other run |
| `ResumeRows.RowExactlyAfter` | packages/cli/src/active-executions.ts:64-123 | status, stack, finish, parent and number of waits of a row change by exactly the steps named, and to what they say; a winner loads what it read, its own data replacing the top node's input |
| `ResumeRows.RowsComeFromCreate` | packages/cli/src/active-executions.ts:73-88 | rows come from new executions only, new, unfinished, with the stack and parent given |
| `ResumeRows.FetchesExactly` | packages/cli/src/wait-tracker.ts:102-112 | reading ends the attempt if and only if there is no row, it is finished, or there is data to put on top of nothing; otherwise the stack read is the row's |
| `ResumeRows.ClaimsExactlyWhenWaiting` | packages/cli/src/active-executions.ts:114-123 | a resume goes on if and only if its row waits, and otherwise ends, its capacity given back and no row changed |
| `ResumeRaces.EarlierReadsCanWin` | packages/cli/src/wait-tracker.ts:102-129 | a row read in an earlier waiting period can win in a later one: the execution goes back to an old stack |
| `ResumeRaces.CrossingWritesReplaceTheStack` | packages/cli/src/workflow-helpers.ts:315-338 | a child's write that lands in a later waiting period replaces that period's stack |
| `ResumeRaces.LateChildrenWakeWithoutOutput` | packages/cli/src/wait-tracker.ts:161-166 | a child that wrote in one period can wake the next, where nothing was delivered |
| `ResumeRaces.EarlyChildrenWakeWithoutOutput` | packages/cli/src/workflow-helpers.ts:319-321 | a child with an output that reads its parent while it still runs writes nothing, and can wake it in the period it then begins, without the output |
| `ResumeRaces.WebhooksReplaceAChildsOutput` | packages/cli/src/webhooks/webhook-helpers.ts:386-391 | a webhook that resumes the parent puts its data where a child had written |
| `ResumeRaces.LateFinalizeForgetsSuccessor` | packages/cli/src/active-executions.ts:223-240 | a run that went to wait, finalized late, settles its successor's promise, whose handler drops the successor from the table while it is running |
| `ResumeRaces.LateFinalizeSilencesChild` | packages/cli/src/wait-tracker.ts:149-166 | and if that successor is a child that then finishes with an output, it is past its finalize and never wakes its waiting parent |
| `ResumeSettling.HandsOffExactlyWhenFirst` | packages/cli/src/wait-tracker.ts:149-166 | a finished child with a parent to wake, by its flag or for lack of one, gets to hand its output over if and only if, when it finalized, its promise was still open and the execution in the table, whatever happens until the handoff |
| `ResumeSettling.HandsOffExactlyWhenItSettled` | packages/cli/src/wait-tracker.ts:149-166 | that is if and only if it has such a parent and its own finalize settled its promise; otherwise it was open, cancelled, or settled by an earlier run that went to wait |
| `ResumeSettling.OwnFinalizeSettlesExactlyWhen` | packages/cli/src/active-executions.ts:223-242 | a finished run's finalize settles its own promise if and only if that was open and the execution in the table |
| `ResumeSettling.OwnSettlementStaysFixed` | packages/cli/src/active-executions.ts:223-242 | over every run of the system, that no longer changes once the run is past its finalize |
| `ResumeSettling.SettlementsStay` | packages/cli/src/active-executions.ts:128-141 | a promise once settled stays as it is through every step of the system |
| `ResumeSettling.StepKeepsSettledRight` | packages/cli/src/active-executions.ts:223-242 | every step keeps: a promise holds the result of its own run, or of a run of the same execution that went to wait |
| `ExecutionRegistry.ApplyValid` | packages/cli/src/active-executions.ts:64-340 | every step of the registry keeps it well formed: entries where they belong, settled before handled, holding capacity until handled |
| `RegistryRuns.CapacityConserved` | packages/cli/src/active-executions.ts:68-156 | units in use equal pending adds plus registered runs whose handler has not run, until shutdown disables control |
| `RegistryRuns.OneReleasePerReservation` | packages/cli/src/concurrency/concurrency-capacity-reservation.ts:23-36 | in every run from the start, giving up and settlement handlers hand back at most what was reserved; a registered run has handed back exactly if its handler has run, whatever it ended as, another exactly if it gave up since |
| `RegistryRuns.HeldAfter` | packages/cli/src/active-executions.ts:120-147 | only reserving takes a unit, and exactly giving up and the handler give it back |
| `RegistryRuns.HandledOnce` | packages/cli/src/active-executions.ts:140-147 | a run's handler runs at most once, and has run exactly if its entry says so |
| `RegistryRuns.ResumesCarryOver` | packages/cli/src/active-executions.ts:126-135 | start time and response promise carry over through any number of resumes while the execution stays in the table |
| `RegistryRuns.HandlersSpareSuccessors` | packages/cli/src/active-executions.ts:140-156 | the handler of a superseded run leaves its successor's entry untouched |
| `RegistryRuns.StrandedForever` | packages/cli/src/active-executions.ts:193-220 | a stranded run keeps its unit through every further run of the registry |
| `RegistryRuns.LostExactlyWhenStranded` | packages/cli/src/active-executions.ts:140-147 | a registered run's unit is never given back if and only if the run is unsettled and no longer the one its id leads to |
| `RegistryRuns.StrandedByWhat` | packages/cli/src/active-executions.ts:193-220 | an unsettled run is stranded by exactly these: a resume over it, and, if it is waiting, a stop or a shutdown |
| `RegistryRuns.SweepLeavesBusyOnes` | packages/cli/src/active-executions.ts:315-326 | shutdown without cancelling leaves exactly the executions neither waiting nor new |
| `RegistryRuns.CancellingShutdownDrains` | packages/cli/src/active-executions.ts:315-326 | after a cancelling shutdown all that is left is settled, not waiting and unhandled |
| `RegistryRuns.CancellingShutdownEnds` | packages/cli/src/active-executions.ts:307-340 | and the table is empty once every pending handler has run, in any order |
| `RegistryRuns.WaitingExecutionBlocksShutdown` | packages/cli/src/active-executions.ts:330-339 | an execution that goes to wait during the other kind of shutdown stays in the table until it is stopped or resumed |
| `RegistryRuns.ShutdownEndsExactlyWhen` | packages/cli/src/active-executions.ts:317-339 | a shutdown that does not cancel is over if and only if each execution it left in the table has been handled without having gone to wait, over every run without adds and stops |
| `RegistryRuns.ExecutionLeavesExactlyWhenHandled` | packages/cli/src/active-executions.ts:146-155 | an execution leaves the table exactly once its run is handled without waiting |
| `RegistryEffects.CapacityExactlyAfter` | packages/cli/src/active-executions.ts:90-145 | while control is on, reserving takes a unit, and giving up what is held and the handler give one back; only a regular shutdown switches it off |
| `RegistryEffects.AdmittedExactlyWhen` | packages/cli/src/concurrency/concurrency-control.service.ts:118-126 | a call gets past the limit if and only if there is none, less is in use, or control is off |
| `RegistryEffects.ShutdownFreezesCapacity` | packages/cli/src/active-executions.ts:307-313 | once a regular shutdown has begun, no further run of events gives back or takes a unit, and nobody is held up |
| `RegistryEffects.TableExactlyAfter` | packages/cli/src/active-executions.ts:137-326 | an id leads to a run after a step exactly if that registered it, or it did before and the step neither replaces it nor takes it out: a stop or shutdown while it waits, its own handler while it does not |
| `RegistryEffects.ModesExactlyAfter` | packages/cli/src/active-executions.ts:153-154 | the response mode goes with the place in the table, except in a shutdown that does not cancel |
| `RegistryEffects.EntryExactlyAfter` | packages/cli/src/active-executions.ts:128-292 | each field of an entry changes by exactly the steps named; what is asked of an id reaches the run registered under it |
| `RegistryEffects.RegistersExactly` | packages/cli/src/active-executions.ts:125-137 | a registered run is running, with start time and response promise of the run it resumes, if that is registered, else its own |
| `ActiveExecutions.ActiveExecutions.ReserveCapacity` | packages/cli/src/active-executions.ts:90-99 | the registry's reserve step once there is capacity, and until then nothing |
| `ActiveExecutions.ActiveExecutions.ReleaseCapacity` | packages/cli/src/active-executions.ts:120-123 | giving a reservation back is the release step: nothing when nothing is held |
| `ActiveExecutions.ActiveExecutions.RegisterRun` | packages/cli/src/active-executions.ts:125-137 | the new entry, what it takes over, and the captured handler are the register step |
| `ActiveExecutions.ActiveExecutions.CarriedOver` | packages/cli/src/active-executions.ts:126-135 | start time and response promise come from the entry replaced, if there is one |
| `ActiveExecutions.ActiveExecutions.Add` | packages/cli/src/active-executions.ts:64-161 | undisturbed, `add` for a new execution or to resume one: kept waiting for capacity, refused if the row does not wait, or registered with the row running |
| `ActiveExecutions.ActiveExecutions.ClaimAndRegister` | packages/cli/src/active-executions.ts:92-161 | with capacity reserved: registers, or gives the capacity back |
| `ActiveExecutions.ActiveExecutions.SetStatus` | packages/cli/src/active-executions.ts:290-292 | sets the status of the entry registered under the id, and of no other |
| `ActiveExecutions.ActiveExecutions.AttachWorkflowExecution` | packages/cli/src/active-executions.ts:167-169 | attaches to the entry registered under the id |
| `ActiveExecutions.ActiveExecutions.AttachResponsePromise` | packages/cli/src/active-executions.ts:171-176 | replaces the response promise of the entry registered under the id |
| `ActiveExecutions.ActiveExecutions.FinalizeExecution` | packages/cli/src/active-executions.ts:223-242 | settles the promise of whichever run is registered under the id, unless it is settled |
| `ActiveExecutions.ActiveExecutions.Settle` | packages/cli/src/active-executions.ts:210-216 | a promise settles once, by a result or by cancelling |
| `ActiveExecutions.ActiveExecutions.StopExecution` | packages/cli/src/active-executions.ts:193-220 | drops a waiting execution at once, settles any other |
| `ActiveExecutions.ActiveExecutions.OnSettled` | packages/cli/src/active-executions.ts:140-156 | the handler works on the entry and reservation it captured |
| `ActiveExecutions.ActiveExecutions.SweepExecution` | packages/cli/src/active-executions.ts:317-326 | what shutdown does to one execution |
| `ActiveExecutions.ActiveExecutions.BeginShutdown` | packages/cli/src/active-executions.ts:307-326 | the whole sweep in place is the registry's shutdown step |
| `WaitTracker.ApplyValid` | packages/cli/src/wait-tracker.ts:43-180 | timers are never shared or reused |
| `WaitTracker.PollKeeps` | packages/cli/src/wait-tracker.ts:59-87 | a poll leaves every timer and entry as it was |
| `WaitTracker.PollArms` | packages/cli/src/wait-tracker.ts:75-86 | and sets a timer for exactly those found without an entry |
| `WaitTracker.PollSetsNoSecond` | packages/cli/src/wait-tracker.ts:75-77 | no new timer is set for an execution that has an entry |
| `WaitTracker.ArmedAsFirstFound` | packages/cli/src/wait-tracker.ts:75-86 | for the time the first of its finds says |
| `WaitTracker.ArmedAfterPoll` | packages/cli/src/wait-tracker.ts:75-86 | after a poll an execution found is armed if and only if it was, or had no entry |
| `WaitTracker.DeadByStepdownOnly` | packages/cli/src/wait-tracker.ts:170-180 | an entry loses its timer if and only if the instance steps down |
| `WaitTracker.SteppingDownSilences` | packages/cli/src/wait-tracker.ts:170-180 | an execution whose only timer is its entry's is left with an entry and no timer |
| `WaitTracker.SilentFromThenOn` | packages/cli/src/wait-tracker.ts:75-87 | such an execution is not woken again by any later takeover or poll, until somebody else starts or stops it |
| `WaitTracker.TakeoverDoesNotRearm` | packages/cli/src/wait-tracker.ts:47-57 | the shortest case: armed, stepped down, taken over, polled, and no timer |
| `WaitTracker.OrphanedByWhat` | packages/cli/src/wait-tracker.ts:97-99 | a timer is orphaned if and only if its execution is started by anything else |
| `WaitTracker.StepdownLeavesOrphans` | packages/cli/src/wait-tracker.ts:170-180 | stepping down leaves exactly the orphans set |
| `WaitTracker.OneTimerEach` | packages/cli/src/wait-tracker.ts:59-99 | if only timers start executions that have an entry, no execution ever has two timers |
| `WaitTracker.TwoTimers` | packages/cli/src/wait-tracker.ts:75-99 | otherwise it can |
| `WaitTracker.StoppingDisarms` | packages/cli/src/wait-tracker.ts:89-95 | stopping takes away the entry and the timer of that execution and nothing else; for an unknown one nothing changes |
| `WaitTracker.StartingDropsEntry` | packages/cli/src/wait-tracker.ts:81-99 | starting drops the entry of that execution and no timer; a timer that fires is used up and starts its own execution |
| `WaitTracker.StoppedStaysUnset` | packages/cli/src/wait-tracker.ts:75-95 | over every run, a stopped execution without an orphan timer has no timer until a poll finds it waiting again, which arms it |
| `WaitTracker.UnsetUntilStepFinds` | packages/cli/src/wait-tracker.ts:75-86 | an execution without entry and timer gets one by a step if and only if that is a poll that finds it |
| `WaitTracker.PollsExactlyWhileLeading` | packages/cli/src/wait-tracker.ts:43-57 | over every run in which takeovers and stepdowns alternate, one interval is set, the one known, while the instance leads, and none while it does not |
| `WaitTracker.WaitTracker.GetWaitingExecutions` | packages/cli/src/wait-tracker.ts:59-87 | the loop over what the query found is the poll step |
| `WaitTracker.WaitTracker.Stop` | packages/cli/src/wait-tracker.ts:89-95 | the entry is gone, exactly its timer is cleared, and for an unknown execution nothing changes |
| `WaitTracker.WaitTracker.Start` | packages/cli/src/wait-tracker.ts:97-99 | drops the entry and leaves the timer |
| `WaitTracker.WaitTracker.OnTimeout` | packages/cli/src/wait-tracker.ts:81-83 | a timer that fires starts its execution |
| `WaitTracker.WaitTracker.EndTracking` | packages/cli/src/wait-tracker.ts:170-180 | clears interval and timers and keeps the table |
| `CredentialTypes.GetParentTypes` | packages/cli/src/credential-types.ts:26-38 | terminates on every acyclic graph though it walks an array it grows; returns exactly the strict ancestors; with single inheritance their first occurrences are the lineage, nearest first |
| `CredentialTypes.HeightDrops` | packages/cli/src/credential-types.ts:33-35 | the measure: each step up lowers the number of ancestors left |
| `CredentialTypes.WalkStep` | packages/cli/src/credential-types.ts:33-35 | pushing keeps the walk's invariant: pushed elements lie below the level of what is being visited |
| `CredentialsOverwrites.SandwichedResolvesAlike` | packages/cli/src/credentials-overwrites.ts:177-216 | any table between the original and its full merge resolves like the original |
| `CredentialsOverwrites.ResolvedIsSandwiched` | packages/cli/src/credentials-overwrites.ts:177-207 | what resolving a type gives lies between its raw data and its full merge |
| `CredentialsOverwrites.NearestTypeWins` | packages/cli/src/credentials-overwrites.ts:209-216 | along a chain of types the full merge has each field with the value the nearest type sets, and no field that none sets |
| `CredentialsOverwrites.OneParentInherits` | packages/cli/src/credentials-overwrites.ts:196-206 | an unresolved type with one parent gives the parent's resolved fields with its own over them, and no others |
| `CredentialsOverwrites.FreshResolvesFully` | packages/cli/src/credentials-overwrites.ts:177-207 | a type of which nothing on the way up is resolved yet resolves to its full merge |
| `CredentialsOverwrites.FreshIsStoredMerged` | packages/cli/src/credentials-overwrites.ts:102-115 | and if the loop comes to it as such, that is what the table holds for it in the end |
| `CredentialsOverwrites.MergingKeepsSandwich` | packages/cli/src/credentials-overwrites.ts:102-115 | merging in place keeps the table so, for every order of its keys |
| `CredentialsOverwrites.ListedAfterChildStaysRaw` | packages/cli/src/credentials-overwrites.ts:102-115 | a parent listed after a type extending it is never stored merged |
| `CredentialsOverwrites.ReloadsResolveAlike` | packages/cli/src/credentials-overwrites.ts:56-76 | any number of reloads of merged tables resolves like the first |
| `CredentialsOverwrites.PipelineIsOverlay` | packages/cli/src/credentials-overwrites.ts:211-215 | reverse, map, filter and reduce give the overlay in which the nearest type wins |
| `CredentialsOverwrites.LookUpIsMerged` | packages/cli/src/credentials-overwrites.ts:209-216 | the lookup is the root-to-leaf override fold, whatever repeats the parent list holds |
| `CredentialsOverwrites.MergingHarmlessExactlyWhen` | packages/cli/src/credentials-overwrites.ts:196-215 | of a type with two parents, merging in place, in any order of the keys, leaves the lookup alone if and only if the type has no entry or its parents agree on every field it leaves open |
| `CredentialsOverwrites.MergedWithTwoParents` | packages/cli/src/credentials-overwrites.ts:102-115 | there merging in place changes the type's entry alone, to its parents' merge and its own |
| `CredentialsOverwrites.SiblingParentsDisagree` | packages/cli/src/credentials-overwrites.ts:196-215 | a table for which merging in place changes a lookup |
| `CredentialsOverwrites.ApplyTwice` | packages/cli/src/credentials-overwrites.ts:139-175 | applying overwrites is idempotent, for skip-list and ordinary types |
| `CredentialsOverwrites.ApplyRespectsUser` | packages/cli/src/credentials-overwrites.ts:139-175 | a value stored by the user survives; a skip-list type keeps its data or ends up with no overwrite field customised |
| `CredentialsOverwrites.AppliesExactly` | packages/cli/src/credentials-overwrites.ts:139-174 | a skip-list type with some overwritten field stored, neither null nor empty nor like the overwrite, keeps its data; otherwise exactly the overwritten fields that are missing, null or empty get the overwrite's value |
| `CredentialsOverwrites.CredentialsOverwrites.GetOverwrites` | packages/cli/src/credentials-overwrites.ts:177-207 | value and marks are those of the recursive resolution with its memo |
| `CredentialsOverwrites.CredentialsOverwrites.SetPlainData` | packages/cli/src/credentials-overwrites.ts:102-115 | table and marks are those of merging key by key; the table stays sandwiched |
| `CredentialsOverwrites.CredentialsOverwrites.Get` | packages/cli/src/credentials-overwrites.ts:209-216 | the lookup equals the override fold of the data as loaded |
| `CredentialsOverwrites.CredentialsOverwrites.SetData` | packages/cli/src/credentials-overwrites.ts:117-130 | what is persisted is the table as merged |
| `CredentialsOverwrites.CredentialsOverwrites.Reload` | packages/cli/src/credentials-overwrites.ts:56-76 | any number of reloads leaves every lookup as it was |
| `CredentialsOverwrites.CredentialsOverwrites.ApplyOverwrite` | packages/cli/src/credentials-overwrites.ts:139-175 | the data, if the type is on the skip list and a field was customised; otherwise each missing, null or empty field that the fold sets has its value and every other is as it was |
| `CredentialsOverwrites.FillEmptyFields` | packages/cli/src/credentials-overwrites.ts:165-174 | the loop fills exactly the fields null, missing or empty |
| `CredentialRepair.ReplaceInvalidCredentials` | packages/cli/src/workflow-helpers.ts:136-244 | disabled nodes and nodes without credentials are left alone; a reference without an id becomes the only row of its name and type, or stays; one whose id exists takes that row's name; one whose id does not becomes like an earlier hopeless one of that id, else the only row of its name, else stays; no old-style lookup is made twice |
| `CredentialRepair.CachedAgreesExactlyWhen` | packages/cli/src/workflow-helpers.ts:192-240 | the cached repair equals resolving each reference on its own if and only if references that fail keep their name wherever their id returns |
| `CredentialRepair.CachedAgreesWhenIdsNameAlike` | packages/cli/src/workflow-helpers.ts:192-240 | in particular when references sharing type and id share the name |
| `CredentialRepair.OrderCanMatter` | packages/cli/src/workflow-helpers.ts:232-239 | a workflow for which the two differ |
| `CredentialRepair.RepairLegacy` | packages/cli/src/workflow-helpers.ts:158-190 | through the cache a reference by name gets the same as without |
| `CredentialRepair.RepairById` | packages/cli/src/workflow-helpers.ts:192-240 | a reference by id: by id, else by name, else as it or an earlier failing one was |
| `CredentialRepair.RepairCredential` | packages/cli/src/workflow-helpers.ts:153-241 | one credential, either way |
| `CredentialRepair.RepairEntries` | packages/cli/src/workflow-helpers.ts:152-241 | all credentials of a node, in order |
| `CredentialRepair.EntryMeans` | packages/cli/src/workflow-helpers.ts:153-240 | what becomes of any one reference, in terms of the rows of the table and of the references met before |
| `CredentialRepair.FindByOnly` | packages/cli/src/workflow-helpers.ts:166-170 | exactly one row is found if and only if there is just one of the name and type |
| `CredentialRepair.RightIsRepaired` | packages/cli/src/workflow-helpers.ts:149-240 | the references met before are those at earlier places of the workflow's enabled nodes |
| `TriggerLeadership.StepKeepsSafe` | packages/cli/src/active-workflow-manager.ts:386-710 | every step but stepping down amid an add keeps: only the leader has triggers in memory or is adding some |
| `TriggerLeadership.AlwaysSafe` | packages/cli/src/active-workflow-manager.ts:386-944 | the same over every run |
| `TriggerLeadership.TriggersLiveOnce` | packages/cli/src/active-workflow-manager.ts:1027-1035 | in such runs no workflow's triggers live on two instances |
| `TriggerLeadership.StepDownSafeExactlyWhenIdle` | packages/cli/src/active-workflow-manager.ts:561-565 | all that can follow a stepdown is safe if and only if the instance was not adding triggers |
| `TriggerLeadership.TakeoverActivatesExactlyWhen` | packages/cli/src/active-workflow-manager.ts:469-499 | a new leader is bound to end up with a workflow's triggers if and only if it has or is adding them, or its own activation finds the workflow active, or one still under way has yet to come to it |
| `TriggerLeadership.TakeoverFromSafety` | packages/cli/src/active-workflow-manager.ts:469-499 | where instances stepped down idle, only the last two cases are left |
| `TriggerLeadership.ActivationCanEnd` | packages/cli/src/active-workflow-manager.ts:475-498 | every activation can come to its end, and without the triggers of a workflow not under way |
| `TriggerLeadership.BusyTakeoverLosesTriggers` | packages/cli/src/active-workflow-manager.ts:470-473 | a run from the start in which nothing goes wrong for the workflow: elected amid its initial activation, an instance ends up leading without the triggers of an active workflow |
| `TriggerLeadership.MemoryExactlyAfter` | packages/cli/src/active-workflow-manager.ts:386-960 | triggers get into an instance's memory only as an add begun while leading ends with some, and out by a stepdown, an error from them, or a remove, done by the leader with several mains |
| `TriggerLeadership.QueueExactlyAfter` | packages/cli/src/active-workflow-manager.ts:636-928 | a workflow is queued by an error from its triggers or a failing add that asks for it, and taken off by an add that gets through or a remove with a single main |
| `TriggerLeadership.RemovedIsGone` | packages/cli/src/active-workflow-manager.ts:924-960 | after the leader's remove no instance has the workflow's triggers, over every run, until an add of it ends with some |
| `TriggerLeadership.AsksTheLeader` | packages/cli/src/active-workflow-manager.ts:604-622 | with several mains asking does nothing but publish; a begun add adds triggers if and only if its instance leads by then |
| `TriggerLeadership.CommandsReachTheLeader` | packages/cli/src/active-workflow-manager.ts:739-742 | what was asked of any main can be done by whoever leads at any later time, and by nobody else |
| `TriggerLeadership.NothingUnasked` | packages/cli/src/active-workflow-manager.ts:739-936 | commands are handled only if some main was asked, and activated is only what an instance found active |
| `WebhookRegistration.ActiveWorkflowManager.AddWebhooks` | packages/cli/src/active-workflow-manager.ts:150-234 | table and result are those of entering the webhooks up to the first that fails for good, then clearing |
| `WebhookRegistration.ActiveWorkflowManager.CreateWebhook` | packages/cli/src/active-workflow-manager.ts:167-187 | the row to store and its method and path, which `SameKeyExactlyWhen` and `RowOfIs` tell in values |
| `WebhookRegistration.StoredAt` | packages/cli/src/active-workflow-manager.ts:158-193 | which keys have a row after entering, and whose |
| `WebhookRegistration.AllRegistered` | packages/cli/src/active-workflow-manager.ts:158-233 | returning true means that under every webhook's method and stripped path there is a row, the workflow's, as entered by the workflow's last webhook of that key |
| `WebhookRegistration.RegisteredOnInit` | packages/cli/src/active-workflow-manager.ts:194-204 | on init and leadership change: exactly if one of that key was entered or the row was the workflow's before |
| `WebhookRegistration.RolledBack` | packages/cli/src/active-workflow-manager.ts:206-224 | after a failure and completed clearing the table is the old one less the workflow's rows and less the rows entered over |
| `WebhookRegistration.NoRowLeft` | packages/cli/src/active-workflow-manager.ts:206-224 | no row of the workflow is left |
| `WebhookRegistration.OthersUnchangedUnlessColliding` | packages/cli/src/active-workflow-manager.ts:150-234 | other workflows' rows are unchanged if and only if no webhook gone through had the method and path of one of them |
| `WebhookRegistration.RollbackTakesAnothersRow` | packages/cli/src/webhooks/webhook.service.ts:135-135 | a rollback that loses another workflow's row |
| `WebhookRegistration.SlashesDoNotMatter` | packages/cli/src/active-workflow-manager.ts:174-179 | paths that differ in a slash at either end share a row |
| `WebhookRegistration.SameKeyExactlyWhen` | packages/cli/src/active-workflow-manager.ts:167-179 | two webhooks share a row if and only if their methods are equal and their paths are so up to one slash at either end |
| `WebhookRegistration.RowOfIs` | packages/cli/src/active-workflow-manager.ts:167-184 | the row names workflow and node, and holds webhook id and number of segments if and only if the path has a parameter and the node a webhook id |
| `WebhookRegistration.ResultMeans` | packages/cli/src/active-workflow-manager.ts:158-233 | true if and only if there are webhooks and each got by; otherwise the first that did not decides between a taken path, with its node, and its own error |
| `WebhookRegistration.NotRolledBack` | packages/cli/src/active-workflow-manager.ts:206-214 | if clearing fails too, what went through before the failure stays |
| `ActivationQueue.TimersKnownUnlessOvertaken` | packages/cli/src/active-workflow-manager.ts:811-882 | each timer set is the handle in its workflow's entry, kept by a step if and only if no failing attempt, early or late, finds its workflow queued anew |
| `ActivationQueue.AttemptAtOnceIsValid` | packages/cli/src/active-workflow-manager.ts:818-852 | an attempt in one step keeps it, whether or not it took the workflow off the queue and failed |
| `ActivationQueue.OneTimerEach` | packages/cli/src/active-workflow-manager.ts:853-863 | so no workflow has two timers |
| `ActivationQueue.OvertakenAttemptLeavesTwoTimers` | packages/cli/src/active-workflow-manager.ts:843-844 | a trigger error during an attempt that then fails, before or after it took the workflow off, leaves two |
| `ActivationQueue.DelayAfterFailures` | packages/cli/src/active-workflow-manager.ts:826-845 | in every run its entry keeps its mode, and k failures after the workflow was last queued, the timer of its entry runs min(1000 * 2^k, 86400000) ms |
| `ActivationQueue.RetriedExactlyWhenQueued` | packages/cli/src/active-workflow-manager.ts:823-852 | an attempt is followed by another if and only if it fails and the workflow, whatever happened meanwhile, was last queued and not taken off |
| `ActivationQueue.InQueueAfter` | packages/cli/src/active-workflow-manager.ts:811-882 | a workflow is in the queue exactly if the last step to queue it or take it off queued it |
| `ActivationQueue.PublishedAttemptStaysQueued` | packages/cli/src/active-workflow-manager.ts:603-619 | with several mains a published attempt leaves an entry that nothing wakes |
| `ActivationQueue.StepSparesOthers` | packages/cli/src/active-workflow-manager.ts:811-882 | a step leaves entries and timers of the other workflows alone, unless it empties the queue, which leaves no entry and none of their timers |
| `ActivationQueue.AttemptsComeAndGo` | packages/cli/src/active-workflow-manager.ts:818-852 | attempts begin with a timer, which is used up, and end once each |
| `ActivationQueue.ActiveWorkflowManager.AddQueuedWorkflowActivation` | packages/cli/src/active-workflow-manager.ts:811-863 | replaces entry and timer by new ones with the initial timeout |
| `ActivationQueue.ActiveWorkflowManager.RemoveQueuedWorkflowActivation` | packages/cli/src/active-workflow-manager.ts:868-873 | drops entry and timer |
| `ActivationQueue.ActiveWorkflowManager.RemoveAllQueuedWorkflowActivations` | packages/cli/src/active-workflow-manager.ts:878-882 | drops every entry and its timer |
| `ActivationQueue.ActiveWorkflowManager.OnAttemptOver` | packages/cli/src/active-workflow-manager.ts:823-852 | what the retry function does once adding has ended, with the entry it finds by then |
| `ActivationQueue.ActiveWorkflowManager.OnTimeout` | packages/cli/src/active-workflow-manager.ts:818-824 | a timer fires and its attempt begins |
| `Deadlines.RunMainProcess` | packages/cli/src/workflow-runner.ts:238-347 | sets the row's start anew; the deadline handed down; and a stop at its timeout after the start it is told of, or at once, exactly if the delay is one a timer takes |
| `Deadlines.RootTimeoutIs` | packages/cli/src/workflow-runner.ts:240-246 | the timeout is the workflow's own if it has one, else the default, and never beyond the maximum where it limits |
| `Deadlines.StartExecution` | packages/cli/src/workflow-execute-additional-data.ts:324-335 | what a sub-workflow hands down |
| `Deadlines.EarlierExactlyWhen` | packages/cli/src/workflow-execute-additional-data.ts:329-332 | it is the earlier of its own and its parent's if and only if neither instant 0 nor the largest safe integer gets in the way |
| `Deadlines.DeadlineIsEarliest` | packages/cli/src/workflow-execute-additional-data.ts:324-335 | through any depth the deadline is the earliest of all limits on the way, and none exactly if nobody is limited |
| `Deadlines.DescendantsNoLater` | packages/cli/src/workflow-execute-additional-data.ts:324-335 | a descendant's deadline is never later than an ancestor's |
| `Deadlines.UnsafeDeadlinesAreCut` | packages/cli/src/workflow-execute-additional-data.ts:330-330 | a first deadline beyond the largest safe integer becomes that |
| `Deadlines.StoppedAfterFirstStartExactlyWhen` | packages/cli/src/workflow-runner.ts:325-347 | over any number of runs, the last is stopped its timeout after the first start if and only if, told the row's start, the run before set it at that instant or is out of time too; not told, never later than that instant |
| `Deadlines.FirstResumeKeepsStop` | packages/cli/src/wait-tracker.ts:120-128 | the first resume by a timer keeps the stop |
| `Deadlines.SecondResumeMovesStop` | packages/cli/src/workflow-runner.ts:278-278 | the second moves it, as the first rewrote the start |
| `KeyPaths.GetAllKeyPaths` | packages/cli/src/utils.ts:104-125 | the accumulator ends up with its old contents and the rendered in-order flattening |
| `KeyPaths.FindsExactly` | packages/cli/src/utils.ts:110-123 | found are exactly the paths that lead to a string member passing the filter |
| `KeyPaths.FoundOnce` | packages/cli/src/utils.ts:110-123 | each once |
| `KeyPaths.FoundInOrder` | packages/cli/src/utils.ts:110-123 | in the order of items and members |
| `KeyPaths.RenderGoesOn` | packages/cli/src/utils.ts:112-116 | a key is added after a dot, unless it comes first, and an index in brackets |
| `KeyPaths.DigitsAreDecimal` | packages/cli/src/utils.ts:112-112 | indices are in decimal, without leading zeros |
| `KeyPaths.ParsesBack` | packages/cli/src/utils.ts:112-116 | paths over keys that are non-empty and hold neither dot nor bracket can be read back |
| `KeyPaths.PathsToldApart` | packages/cli/src/utils.ts:104-125 | then rendered paths are pairwise distinct, and each read back leads to its string |
| `KeyPaths.DottedKeysCollide` | packages/cli/src/utils.ts:116-116 | other keys may render alike |
| `Deduplication.DataDeduplicationService.CheckProcessedItemsAndRecord` | packages/core/src/data-deduplication-service.ts:59-85 | the items returned are, for each key the deduplicator returns, the last item with it |
| `Deduplication.OneItemPerKey` | packages/core/src/data-deduplication-service.ts:59-85 | if the deduplicator partitions the keys, of every key exactly one item comes out, the last, and nothing else |
| `Deduplication.OneItemPerProperty` | packages/core/src/data-deduplication-service.ts:59-85 | no two items that come out agree in the property or lack it both, and each item that went in agrees with one of them |
| `Deduplication.SameKeyExactlyWhen` | packages/core/src/data-deduplication-service.ts:69-70 | two items have the same key if and only if both lack the property or both have the same text |
| `Deduplication.NewOrProcessed` | packages/core/src/data-deduplication-service.ts:81-84 | new and processed are disjoint by key |
| `Deduplication.AsManyAsKeys` | packages/core/src/data-deduplication-service.ts:66-84 | as many items come out as there are keys |
| `Deduplication.LackingItemsShareAKey` | packages/core/src/data-deduplication-service.ts:69-70 | of all items lacking the property exactly one comes out, the last of them, and only if there are any |

## Left out

- `ResumeHandoff.ParentResumesWithAChildsOutput`: says nothing of winners that read their row in an earlier period, nor of periods in which a child's write of an earlier period landed; `ResumeRaces.EarlierReadsCanWin` and `ResumeRaces.CrossingWritesReplaceTheStack` show that it does not hold of them. Children that wake a parent without having written in the period are covered, as winners before whom no child, or another, had written.
- `ResumeOutputs.LastPassCounts`: a last node whose run data holds no pass at all counts as one without run data; the code raises an error there if the node is pinned in manual mode.
- `TriggerLeadership.TriggersLiveOnce`: runs in which no instance steps down amid an add; `TriggerLeadership.StepDownSafeExactlyWhenIdle` shows the condition is exact. Becoming a follower and removing all triggers is one step.
- `TriggerLeadership.ActivationCanEnd`: queries do not fail there; one that throws ends an activation with workflows still to begin.
- `CredentialsOverwrites.CredentialsOverwrites.Get`: the fold is stated for single inheritance; `CredentialsOverwrites.MergingHarmlessExactlyWhen` shows why, for two parents that extend nothing themselves. Field values are scalars, and encrypting, storing and parsing the table is taken to give it back unchanged.
- `CredentialRepair.ReplaceInvalidCredentials`: a reference without an `id` property at all, as opposed to one with `id: null`, is not modelled.
- `ActivationQueue.ActiveWorkflowManager.OnAttemptOver`: when an entry is missing after a failure, the error this raises is the end of the attempt.
- `WebhookRegistration.ActiveWorkflowManager.ClearWebhooks`: deregistering webhooks with third parties, and static data, are not modelled; any failure there is a failure before the deletion.
- `KeyPaths.GetAllKeyPaths`: numbers, booleans and null are one value; the order of members is given.
- `Deduplication.DataDeduplicationService.CheckProcessedItemsAndRecord`: the singleton and its assertions are not modelled; a property is its JSON text.
- `ActiveExecutions.ActiveExecutions.BeginShutdown`: the loop that polls every half second until the table is empty is stated over runs instead (`RegistryRuns.CancellingShutdownEnds`, `RegistryRuns.WaitingExecutionBlocksShutdown`).
- Concurrency control has one queue that counts every run; per-mode queues and runs exempt from the limit are not told apart, and the order in which throttled calls get their turn is left open.
- What a webhook or chat message changes of the node it resumes, beside its input, and the checks it makes of the row before that.
- Processes do not crash, rows are not deleted, and a registry does not outlive its process.
- The leadership and resume models are transition systems on values, not classes: they are about many instances at once.
- Response promises are attached and carried over but not resolved; streaming, HTTP responses, events, push messages, logging and error reporting are not part of this model.
- Queue mode beyond the one step in which the row of a new execution is marked, and the worker side of it.
- `enqueueExecution`, lifecycle hooks, `WorkflowExecute`, repositories, the cipher and `ActiveWorkflows` beyond the set of workflows it holds are not part of this model.
- Prototype keys of objects used as maps.
