# Verified models of five n8n backend services

This project models the stateful cores of n8n's backend (`packages/cli/src`) and proves properties of them:

- **Credential inheritance and overwrites** (`ExtendsGraph`, `CredentialTypes`, `CredentialsOverwrites`,
  `OverwritePrecedence`, `ExtendsContents`): `getParentTypes` appends to the lists it walks, and `setData` flattens overwrite
  data with a memo that keeps less than it computes. Neither effect, nor the order of the keys, changes what a
  lookup answers, as long as no type has two parents; the exact conditions are proved, also for class-level
  lists that are shared with the ones lookups append to.
- **Active executions** (`ExecutionProtocol`, `ExecutionProperties`, `ExecutionFairness`,
  `ExecutionSettlement`, `ExecutionOwnership`, `ExecutionShutdown`, `ActiveExecutions`): every interleaving of
  adds, stops, finalizations, settlement handlers, queue removals and shutdown is a run of a state machine.
  Concurrency slots balance, limits hold, adds are admitted first in first out, the first step that settles a
  promise decides its outcome, entries are owned by their promises, and shutdown empties the registry. The class
  is proved to take the machine's steps.
- **Node types and indexes** (`NodeDescriptions`, `NodeRebuild`, `RebuildAfterLookups`, `NodeIndex`,
  `IndexContents`, `LoadNodesAndCredentials`): a rebuild clones usable nodes into AI tools and pushes options
  through shared lists. Rebuilding twice shows the same types exactly under a condition on sharing; type lists,
  indexes and lookups agree.
- **Workflow activation** (`ActivationQueue`, `Webhooks`): queued workflows and live timers match over every
  run, a removed workflow is never retried, the backoff has a closed form, start-up loses no workflow, and webhook
  registration is all or nothing and serves the requests it should.

Code that updates state is modelled by classes and loops, each proved against a function of the state before;
lemmas and runs are about those functions. JavaScript arrays shared by reference are heap objects
(`ExtendsList`) or addresses into a store of lists (`NodeDescriptions.Store`). Each piece of code between two
`await`s is one step.

`dafny verify dfyconfig.toml` checks everything (Dafny 4.11).

## Where the code differs from its comments or from what it is meant to do

- `webhooks/webhook.service.ts:110-114` upserts, while the comments of `addWebhooks`
  (`active-workflow-manager.ts:195-198`, `212-216`) expect an insert that fails on a taken key. So a taken key
  is overwritten: `OthersKeepUnlessOverwritten` gives the exact condition under which rows of other workflows
  survive, and `InsertingKeepsOthers` the promise under the insert that the comments expect.
- `concurrency/concurrency-queue.ts:45-55` adds capacity and resolves the next execution when a queued one is
  removed, although the removed one held no slot. A lane at its limit then exceeds it unless nothing else
  waited (`RemovalOveradmits`, and `RemovalExceedsLimit` for a run that does).
- `shutdown` disables concurrency control (`active-executions.ts:218-222`) before it calls `removeAll`, which
  returns at once when disabled (`concurrency/concurrency-control.service.ts:142-143`). The cancelled ids never
  reach the database from there (`FirstPass`).
- Stopping an execution that is marked waiting but not finalized deletes its entry without settling its
  promise (`active-executions.ts:158-161`). Its slot is never released (`StopReleasesUnlessWaiting`,
  `OrphanForever`, and `WaitingStopIsReached` for a run that does).
- `setStatus` accepts an id whose handler has already run (`active-executions.ts:207-209`). If the first
  pass of shutdown then keeps the entry, nothing deletes it and the wait loop never ends (`ShutdownDrainsIff`,
  `StuckForever`, and `StuckIsReached` for a run that does).
- Adding an id again too early strands a promise and its slot: the earlier one if it is still pending
  (`PendingReAddIsOrphaned`), the new one if the earlier is settled but not handled (`EarlyReAddIsOrphaned`).
- A retry in multi-main mode only publishes a command (`active-workflow-manager.ts:528-535`), so its queue
  entry keeps a timer that has fired (`FiringNeedsSingleMain`).
- `packages/core/src/nodes-loader/directory-loader.ts:218-223` shares the class-level `extends` with the list
  that `getParentTypes` appends to. Flattening after a lookup then lets a farther type win, exactly if some
  looked-up type has a recognized grandparent (`SharedListsKeepPrecedenceIff`).
- With two parents, `getOverwrites` lets the later parent win and `get` the earlier one
  (`PrecedenceSurvivesIff`, and `PrecedenceNeedsSingleInheritance` where all parents are recognized).
- Looking up a node of a lazily loaded package adds its descriptions to the loader a second time
  (`directory-loader.ts:177-179`), and looking up a credential rewrites its known entry (`218-223`). A rebuild
  afterwards can differ (`SameNodesAfterLookup`, `SameEntriesAfterLookup`, `IndexAfterLookup`).
- The shared `extends` lists are also what `supportsProxyAuth` reads (`load-nodes-and-credentials.ts:250-255`), so
  that lookups can make nodes take the custom option in a later rebuild (`ForwardsAuthAfterLookups`,
  `RebuildAfterLookups`).
- Two packages claim the same full name if the name of one continues the other after a dot
  (`load-nodes-and-credentials.ts:370`); the later loader's source wins (`OwnSourceIff`, `DottedPackageLosesSource`).
- A list that only another node exposes for the custom option makes a second rebuild differ from the first
  (`RebuildTwice`, `SharedListBreaksRebuildTwice`).

## Model

| member | source | states |
|---|---|---|
| `ExtendsGraph.OrderIsAncestors` | packages/cli/src/credential-types.ts:26-34 | On any acyclic graph the lookup order of a type lists exactly its proper ancestors, where ancestors are defined by paths. |
| `ExtendsGraph.OrderHasNoDuplicates` | packages/cli/src/credential-types.ts:26-34 | No ancestor is met twice, and a type never meets itself. |
| `ExtendsGraph.OrderOfChain` | packages/cli/src/credential-types.ts:26-34 | With one parent the lookup order is the parent followed by its own order, even if the parent is listed repeatedly. |
| `CredentialInheritance.Walk` | packages/cli/src/credential-types.ts:26-34 | A call changes only the lists of the type and its ancestors, and every element it appends is a proper ancestor. |
| `CredentialInheritance.WalkSettles` | packages/cli/src/credential-types.ts:26-34 | From any state that calls can reach, a call returns a list whose first occurrences are the lookup order, and leaves every list as loaded or in that order. |
| `CredentialInheritance.LookupNeverDrifts` | packages/cli/src/credential-types.ts:26-34 | After any sequence of calls for any names, a call returns exactly the proper ancestors of the loaded graph, first met in an order that the loaded graph alone fixes. |
| `CredentialInheritance.WalkIgnores` | packages/cli/src/credential-types.ts:28-31 | The list being appended to while it is walked has no effect on the nested calls for its ancestors. |
| `CredentialInheritance.WalkGrows` | packages/cli/src/credential-types.ts:28-31 | With single inheritance a call only appends to lists, and never an element that the loaded list has. |
| `CredentialInheritance.ListsStayIff` | packages/cli/src/credential-types.ts:28-33 | With single inheritance the stored lists stay as loaded through a sequence of calls if and only if no called type has a grandparent. |
| `CredentialInheritance.ListsGrow` | packages/cli/src/credential-types.ts:28-33 | For a chain of three the stored lists do grow: a second call returns more elements than the first. |
| `ExtendsContents.ListContents` | packages/cli/src/credential-types.ts:28-33 | On any acyclic graph and after any calls, the list of a type holds what was loaded, and all its ancestors if and only if it was called for or lies above a type that was. |
| `CredentialInheritance.CredentialTypes.constructor` | packages/cli/src/credential-types.ts:7-8 | Lists that are not shared and have an acyclic graph make a valid service. |
| `CredentialInheritance.CredentialTypes.GetParentTypes` | packages/cli/src/credential-types.ts:26-34 | On heap lists shared by reference the recursion terminates, returns the stored list itself, and leaves the lists that `Walk` describes. |
| `CredentialInheritance.CredentialTypes.PushParentsOf` | packages/cli/src/credential-types.ts:29-31 | One turn appends the ancestors of one element, as its own nested call left them. |
| `Overwrites.MergeIsFirstHolder` | packages/cli/src/credentials-overwrites.ts:95-102 | Reversing and merging the records of a list gives each key the value of the first listed type that has it, and no other keys. |
| `Overwrites.GetIgnoresRepetitions` | packages/cli/src/credentials-overwrites.ts:95-102 | The repetitions that `getParentTypes` accumulates do not change the answer of a lookup. |
| `Overwrites.FlattenIsBetween` | packages/cli/src/credentials-overwrites.ts:29-42 | For every key order and every state of the memo, flattening keeps all types and own fields and adds only fields that pass down along the graph. |
| `Overwrites.OwnFieldsStay` | packages/cli/src/credentials-overwrites.ts:29-42 | A field given for a type keeps its value in that type's record, on any acyclic graph. |
| `Overwrites.UnambiguousKeepsAnswers` | packages/cli/src/credentials-overwrites.ts:29-102 | Where each type inherits from at most one recognized parent, which is listed first and inherits from nothing if there are other parents, each lookup after flattening answers with the value of the nearest type, in any key order. |
| `Overwrites.SetDataKeepsAnswers` | packages/cli/src/credentials-overwrites.ts:29-42 | With single inheritance, after flattening in any key order each lookup answers with the value of the nearest type whose given data has the key. |
| `Overwrites.FlatteningIsInvisible` | packages/cli/src/credentials-overwrites.ts:29-102 | With single inheritance each lookup after flattening answers with the same record as a lookup in the data as it was given. |
| `Overwrites.SetDataTwice` | packages/cli/src/credentials-overwrites.ts:29-42 | Setting flattened data again, in another key order, changes no answer. |
| `Overwrites.SetDataKeepsKeys` | packages/cli/src/credentials-overwrites.ts:63-102 | With any number of parents, a lookup has exactly the keys given for the type and all its ancestors, each with a value that was given for it. |
| `OverwritePrecedence.PrecedenceSurvivesIff` | packages/cli/src/credentials-overwrites.ts:63-93 | For lists without repetitions, recognized or not, nearest-type precedence holds for all data and key orders if and only if no type is ambiguous in that sense. |
| `OverwritePrecedence.LastListedBreaksPrecedence` | packages/cli/src/credentials-overwrites.ts:81-84 | Whenever the last recognized type a class lists is not the first in lookup order, there are data and a key order for which the farther value is answered. |
| `OverwritePrecedence.SharedListsKeepPrecedenceIff` | packages/core/src/nodes-loader/directory-loader.ts:218-223 | With single inheritance and class-level lists that are the very lists lookups append to, precedence holds after any sequence of lookups if and only if none was for a type with a recognized grandparent; where all parents are recognized, if and only if no stored list has grown. |
| `OverwritePrecedence.SharedListsBreakPrecedence` | packages/core/src/nodes-loader/directory-loader.ts:218-223 | One lookup of a chain of three types is enough to break it. |
| `Overwrites.FillingIsIdempotent` | packages/cli/src/credentials-overwrites.ts:44-61 | Filling keeps every field that is not blank, gives each blank one its overwrite where there is one, adds nothing else, and changes nothing the second time. |
| `Overwrites.FilledFromNearest` | packages/cli/src/credentials-overwrites.ts:44-61 | With single inheritance each blank field takes the value of the nearest type in the data as it was given, before flattening. |
| `Overwrites.CredentialsOverwrites.constructor` | packages/cli/src/credentials-overwrites.ts:20-27 | The service starts with the configured data, flattened. |
| `Overwrites.CredentialsOverwrites.SetData` | packages/cli/src/credentials-overwrites.ts:29-42 | The loop, with the memo reset and results written back only when not empty, stores what `Flatten` says. |
| `Overwrites.CredentialsOverwrites.GetOverwrites` | packages/cli/src/credentials-overwrites.ts:63-93 | The memoised recursion terminates and returns the record and the memo that `Resolve` says. |
| `Overwrites.CredentialsOverwrites.Get` | packages/cli/src/credentials-overwrites.ts:95-102 | At any point of a history of lookups the answer is the merge over the type and its ancestors, each once, nearest first. |
| `Overwrites.CredentialsOverwrites.ApplyOverwrite` | packages/cli/src/credentials-overwrites.ts:44-61 | The loop over the overwrites fills exactly the blank fields, whatever order it visits them in. |
| `ExecutionProperties.SlotsBalanceOnEveryRun` | packages/cli/src/active-executions.ts:49-127 | In every interleaving and for each mode, completed throttles are the releases, the adds lost to the database, the adds not yet registered and the promises not yet handled; each handler releases exactly once. |
| `ExecutionProperties.SlotsInRegularMode` | packages/cli/src/active-executions.ts:74-77 | In regular mode without database failures, throttles minus releases are the adds not yet registered plus the promises not yet handled. |
| `ExecutionProperties.FirstSettlementIsFinal` | packages/cli/src/active-executions.ts:149-175 | However often an execution is stopped and finalized, its first settlement stands for the rest of every run, and a handler never runs twice. |
| `ExecutionProperties.StartedAtSurvives` | packages/cli/src/active-executions.ts:95-104 | While an id stays registered its start time is that of the first add, through any number of resumptions. |
| `ExecutionProperties.LimitHoldsOnEveryRun` | packages/cli/src/concurrency/concurrency-control.service.ts:113-135 | In every run a lane holds at most its limit plus one slot for each time that one of its waiting adds was removed while another one waited, and nothing waits while a slot is free. |
| `ExecutionProperties.RemovalOveradmits` | packages/cli/src/concurrency/concurrency-queue.ts:45-55 | In every run, removing a queued execution finds its lane at its limit or beyond, and stays within the limit if and only if the lane was at it and nothing else waited. |
| `ExecutionProperties.RemovalExceedsLimit` | packages/cli/src/concurrency/concurrency-queue.ts:45-55 | With a limit of one, three adds and the removal of one that waits leave two executions with a slot. |
| `ExecutionFairness.ServedInOrder` | packages/cli/src/concurrency/concurrency-queue.ts:22-75 | Over every interleaving, the adds that called `throttle` for a lane, less those removed while they waited, are those admitted followed by those that still wait, each once and in order. |
| `ExecutionFairness.ReleaseServesFirst` | packages/cli/src/concurrency/concurrency-queue.ts:39-75 | Where adds wait, a release admits the one that waits longest, and the others wait on in their order. |
| `ExecutionFairness.RemovalServesFirst` | packages/cli/src/concurrency/concurrency-queue.ts:45-75 | A removal takes out the first waiting add with the id, and admits the first of those left, if any. |
| `ExecutionFairness.ThrottleQueuesLast` | packages/cli/src/concurrency/concurrency-queue.ts:22-33 | An add beyond the capacity of its lane waits behind the others; any other, and any without a limit, is admitted at once. |
| `ExecutionSettlement.OutcomeIsFirstAsked` | packages/cli/src/active-executions.ts:150-175 | Over every run, the outcome of each post-execution promise is what the first finalization, stop or shutdown that reached it asked for: its run data, or a rejection; it is pending if none did. |
| `ExecutionSettlement.ResponseIsFirstAsked` | packages/cli/src/active-executions.ts:144-157 | Over every run, the outcome of each response promise is what the first resolution, stop or shutdown asked for. |
| `ExecutionSettlement.CancelledIffStopped` | packages/cli/src/active-executions.ts:163 | A workflow execution is cancelled in a run if and only if some stop, or the first pass of shutdown, reached it where it was attached to an entry that did not wait. |
| `ExecutionSettlement.StepOnEntry` | packages/cli/src/active-executions.ts:107-209 | A step changes only the entry that it leads to, and of it only the field that the step is about. |
| `ExecutionSettlement.StepAddsEntry` | packages/cli/src/active-executions.ts:95-105 | An entry that a registration adds is that of its ticket, pending and running, with the start time and response promise of the entry it replaces. |
| `ExecutionSettlement.StepOnRegistry` | packages/cli/src/active-executions.ts:95-236 | A handler deletes the entry of its id unless it waits, a stop that of a waiting one, and the first pass of shutdown those that wait and the new ones that it does not stop; registration leads its id to the new entry, and no other step changes the registry. |
| `ExecutionSettlement.FinalizeResolves` | packages/cli/src/active-executions.ts:170-175 | Finalizing a registered execution resolves its pending promise with the run data, and does nothing to a settled one. |
| `ExecutionSettlement.StopRejects` | packages/cli/src/active-executions.ts:162-165 | Stopping an execution that does not wait rejects its pending promise. |
| `ExecutionSettlement.StopReaches` | packages/cli/src/active-executions.ts:150-165 | A stop rejects the response promise of the entry unless it is settled, and cancels its workflow execution unless the entry waits; no other promise or execution is touched. |
| `ExecutionOwnership.OwnedOnEveryRun` | packages/cli/src/active-executions.ts:84-122 | In every disciplined run each unhandled promise is the one stored under its id, whatever statuses are set. |
| `ExecutionOwnership.OwnedIffDisciplined` | packages/cli/src/active-executions.ts:84-167 | From owned promises, a step other than shutdown keeps them owned if and only if it is disciplined. |
| `ExecutionOwnership.HandlerDeletesItsOwnEntry` | packages/cli/src/active-executions.ts:107-122 | In every disciplined run the handler of one add never deletes the entry of another. |
| `ExecutionOwnership.ParkedOnEveryRun` | packages/cli/src/active-executions.ts:113-122 | If also a status other than waiting is set only before the handler, an entry outlives its handler only while waiting. |
| `ExecutionOwnership.ParkedIffTimely` | packages/cli/src/active-executions.ts:207-209 | From there, such a step keeps that if and only if it does not give an entry whose handler has run a status other than waiting. |
| `ExecutionOwnership.OrphanForever` | packages/cli/src/active-executions.ts:107-122 | A pending promise that no id leads to is never settled nor handled, whatever happens, so its slot is lost. |
| `ExecutionOwnership.StopReleasesUnlessWaiting` | packages/cli/src/active-executions.ts:150-167 | After a stop of an execution with a pending promise some run can release its slot if and only if it was not waiting. |
| `ExecutionOwnership.EarlyReAddIsOrphaned` | packages/cli/src/active-executions.ts:95-122 | If an id is added again before the handler of its settled promise ran, that handler strands the new promise if and only if the old entry is not waiting. |
| `ExecutionOwnership.PendingReAddIsOrphaned` | packages/cli/src/active-executions.ts:95-105 | If an id is added again while its earlier promise is pending, that promise is stranded at once. |
| `ExecutionOwnership.WaitingStopIsReached` | packages/cli/src/active-executions.ts:158-161 | From the start, adding an execution, marking it waiting and stopping it strands its promise. |
| `ExecutionShutdown.PassPointwise` | packages/cli/src/active-executions.ts:224-236 | Whatever order the first pass of shutdown visits the ids in, each entry ends as if it were the only one. |
| `ExecutionShutdown.ToCancelIsExact` | packages/cli/src/active-executions.ts:225-231 | The ids to cancel are exactly, and once each, those with a response promise, or all in regular mode on request. |
| `ExecutionShutdown.SurvivorsAreDone` | packages/cli/src/active-executions.ts:216-238 | Every entry that survives the first pass is not waiting, and is settled if it is new; cancelled ones are rejected unless settled before; concurrency control is off. |
| `ExecutionShutdown.ShutdownDrainsIff` | packages/cli/src/active-executions.ts:216-236 | The first pass leaves only entries whose handler is still to run if and only if it removes every entry whose handler has run. |
| `ExecutionShutdown.SurvivingHandledIsStuck` | packages/cli/src/active-executions.ts:216-236 | Where promises are owned, an entry that violates this has no handler of its id left to run. |
| `ExecutionShutdown.StuckForever` | packages/cli/src/active-executions.ts:240-249 | Such an entry stays registered through every run of the wait loop, which then never ends. |
| `ExecutionShutdown.ShutdownDrains` | packages/cli/src/active-executions.ts:216-236 | After a disciplined run with timely status changes the first pass leaves only entries whose handler will delete them. |
| `ExecutionShutdown.ShutdownEndsIff` | packages/cli/src/active-executions.ts:216-250 | In every disciplined run with timely status changes, and after any steps of the wait loop that add nothing and park nothing, the executions still registered are exactly those the first pass left and whose handler has not run; so the loop ends if and only if all these handlers have run. |
| `ExecutionShutdown.WaitLoopEnds` | packages/cli/src/active-executions.ts:240-249 | Whatever happens during its sleeps, the loop takes at most one turn for each execution beside the idle ones, has ended once it slept that often, and ends exactly with the last handler. |
| `ExecutionShutdown.IdleIff` | packages/cli/src/active-executions.ts:247-248 | A sleep leaves the registry as it is if and only if no handler of a registered execution runs in it. |
| `ExecutionShutdown.NoMoreSleepsThanExecutions` | packages/cli/src/active-executions.ts:242-249 | With n executions left, at most n sleeps are not idle. |
| `ExecutionShutdown.ShutdownEndsAfterEveryRun` | packages/cli/src/active-executions.ts:216-250 | The same from the start: after every disciplined run with timely status changes, for any sleeps, shutdown ends exactly with the last handler and within one turn per surviving entry beside the idle ones. |
| `ExecutionShutdown.ShutdownOfOne` | packages/cli/src/active-executions.ts:216-250 | A single running execution is cancelled, and gone after an idle turn and the one in which its handler runs. |
| `ExecutionShutdown.StuckIsReached` | packages/cli/src/active-executions.ts:207-250 | From the start, an execution that waits, is finalized and handled, and is then marked running survives the first pass and is stuck. |
| `ActiveExecutionsService.ActiveExecutions.Throttle` | packages/cli/src/concurrency/concurrency-control.service.ts:113-117 | Taking a slot or queueing behind the others, step by step as the queue does, is the throttle step and nothing else. |
| `ActiveExecutionsService.ActiveExecutions.Release` | packages/cli/src/concurrency/concurrency-control.service.ts:122-126 | Giving a slot back admits exactly the add that waits longest, if any, keeps the order of the others, and changes no entry. |
| `ActiveExecutionsService.ActiveExecutions.RemoveQueued` | packages/cli/src/concurrency/concurrency-queue.ts:45-55 | Finding, cutting out, adding capacity and resolving the next is the removal step: the removed add goes, and the first of the others is admitted. |
| `ActiveExecutionsService.ActiveExecutions.FinishAdd` | packages/cli/src/active-executions.ts:95-105 | The rest of an add takes the register step: a fresh shared record with the start time and response promise of the one it replaces. |
| `ActiveExecutionsService.ActiveExecutions.OnSettled` | packages/cli/src/active-executions.ts:113-122 | The handler takes the handle step on the heap: one release, and the entry goes unless its record is waiting. |
| `ActiveExecutionsService.ActiveExecutions.StopExecution` | packages/cli/src/active-executions.ts:150-167 | Stopping takes the stop step and nothing else: a waiting entry goes with its promise as it was, any other has its attached workflow execution cancelled and its record rejected unless it was settled, and unknown ids are ignored. |
| `ActiveExecutionsService.ActiveExecutions.FinalizeExecution` | packages/cli/src/active-executions.ts:170-175 | The record registered under the id is resolved with the run data if it was pending, and no other record is settled. |
| `ActiveExecutionsService.ActiveExecutions.SetStatus` | packages/cli/src/active-executions.ts:207-209 | The status of a registered record changes, which its handler will see; an unknown id throws. |
| `ActiveExecutionsService.ActiveExecutions.AttachWorkflowExecution` | packages/cli/src/active-executions.ts:133-135 | Only the workflow execution attached to the registered record changes. |
| `ActiveExecutionsService.ActiveExecutions.AttachResponsePromise` | packages/cli/src/active-executions.ts:137-142 | Only the response promise of the registered record changes. |
| `ActiveExecutionsService.ActiveExecutions.ResolveResponsePromise` | packages/cli/src/active-executions.ts:144-147 | The first settlement of a response promise stands; an unknown id is ignored. |
| `ActiveExecutionsService.ActiveExecutions.FirstPass` | packages/cli/src/active-executions.ts:216-238 | The first pass of shutdown takes the shutdown step, collects the ids to cancel in order, and passes none of them on to the database. |
| `ActiveExecutionsService.ActiveExecutions.PassOverId` | packages/cli/src/active-executions.ts:226-236 | One turn of the first pass, and whether it cancels. |
| `WorkflowActivation.QueueAndTimersMatch` | packages/cli/src/active-workflow-manager.ts:688-761 | Over every single-main run, each queued id has exactly one live timer, each live timer belongs to a queued id, entries that a retry would skip are never queued, and delays stay in bounds. |
| `WorkflowActivation.FiringNeedsSingleMain` | packages/cli/src/active-workflow-manager.ts:528-535 | A firing timer keeps queue and timers matched if and only if the instance is not in multi-main mode. |
| `WorkflowActivation.RemovedNeverFires` | packages/cli/src/active-workflow-manager.ts:770-807 | Over every single-main run from an empty queue, between the removal of a workflow and the next time it is added or started up, it is neither queued nor active, has no error, and no timer of it is live. |
| `WorkflowActivation.RemovedIsGone` | packages/cli/src/active-workflow-manager.ts:796-806 | Where queue and timers match, a removal leaves no queue entry, live timer, error or activation of the workflow, and everything of the others as it was. |
| `WorkflowActivation.AddedOne` | packages/cli/src/active-workflow-manager.ts:522-625 | By the way in which an add ends, what it leaves of the workflow; it touches no other workflow, and success and late failure leave no timer. |
| `WorkflowActivation.EnqueuedStands` | packages/cli/src/active-workflow-manager.ts:688-742 | After queueing exactly one live timer belongs to the workflow, at the delay of 1000 ms, and nothing of any other has changed. |
| `WorkflowActivation.FiredOne` | packages/cli/src/active-workflow-manager.ts:695-730 | A retry that succeeds or fails late takes the workflow out of the queue, one that fails early leaves it there with the next delay, and no other workflow is touched. |
| `WorkflowActivation.BackoffShape` | packages/cli/src/constants.ts:69-70 | The delay starts at 1000 ms, never falls, never exceeds a day, and equals a day exactly from the 17th failure on. |
| `WorkflowActivation.DelayAfterFailures` | packages/cli/src/active-workflow-manager.ts:695-721 | After k consecutive failed retries of one entry its delay is min(1000 * 2^k, one day), and it is still queued with its workflow and one timer. |
| `WorkflowActivation.StartUpIsPointwise` | packages/cli/src/active-workflow-manager.ts:415-482 | For distinct ids each workflow ends as if it alone had been activated: no failure affects another. |
| `WorkflowActivation.StartUpOrderIsIrrelevant` | packages/cli/src/active-workflow-manager.ts:426-434 | Neither the size of the batches nor the order of activations changes the outcome for any workflow. |
| `WorkflowActivation.StartUpMayOverlap` | packages/cli/src/active-workflow-manager.ts:426-434 | For every interleaving of the pieces that the activations consist of between their awaits, each workflow ends as if the activations had run one after another. |
| `WorkflowActivation.OverlapKeepsMatch` | packages/cli/src/active-workflow-manager.ts:426-482 | Queue and timers match through every such interleaving. |
| `WorkflowActivation.StartUpLosesNothing` | packages/cli/src/active-workflow-manager.ts:439-482 | Each workflow still active ends activated without error and not queued, or failed with its error and queued at the initial delay if and only if the message does not include "Authorization"; all others are untouched. |
| `WorkflowActivation.Chunk` | packages/cli/src/active-workflow-manager.ts:426 | The batches put together are the ids in their order, none is empty, and all but the last have the given size. |
| `WorkflowActivation.ActiveWorkflowManager.AddQueuedWorkflowActivation` | packages/cli/src/active-workflow-manager.ts:688-742 | Queueing clears the timer of an earlier entry and starts a new one at the initial delay. |
| `WorkflowActivation.ActiveWorkflowManager.RemoveQueuedWorkflowActivation` | packages/cli/src/active-workflow-manager.ts:747-752 | Entry and timer go together. |
| `WorkflowActivation.ActiveWorkflowManager.RemoveAllQueuedWorkflowActivations` | packages/cli/src/active-workflow-manager.ts:757-761 | The loop clears every entry and its timer in any state; where queue and timers match, no timer is left. |
| `WorkflowActivation.ActiveWorkflowManager.Add` | packages/cli/src/active-workflow-manager.ts:522-625 | Publishing, a missing workflow, the early return for inactive ones, failures before and after the queue is cleared, and success each leave the stated queue, errors and activations. |
| `WorkflowActivation.ActiveWorkflowManager.OnTimeout` | packages/cli/src/active-workflow-manager.ts:695-730 | A retry leaves the stated state, and keeps queue and timers matched exactly in single-main mode. |
| `WorkflowActivation.ActiveWorkflowManager.Remove` | packages/cli/src/active-workflow-manager.ts:770-807 | In single-main mode, where queue and timers match, nothing is left of the workflow, no timer of it included, and all other workflows are as before; in multi-main mode nothing here changes. |
| `WorkflowActivation.ActiveWorkflowManager.ActivateWorkflow` | packages/cli/src/active-workflow-manager.ts:439-482 | One activation, with a failure queued unless it is one of authorization. |
| `WorkflowActivation.ActiveWorkflowManager.AddActiveWorkflows` | packages/cli/src/active-workflow-manager.ts:415-437 | The nested loops over batches activate every id once, in order. |
| `WebhookRegistration.DynamicTestIgnoresStripping` | packages/cli/src/active-workflow-manager.ts:177-187 | For every path, the test on the raw path answers the same as on the stripped path that is stored. |
| `WebhookRegistration.RowsMatchRequests` | packages/cli/src/active-workflow-manager.ts:184-187 | A row has a path length exactly if its own path is dynamic and its node has a webhook id; it is one more than the slashes of the path, and what `findDynamicWebhook` counts in a request for that path. |
| `WebhookRegistration.StrippedOnce` | packages/cli/src/active-workflow-manager.ts:177-182 | The stored path is the given one without one leading and one trailing slash. |
| `WebhookRegistration.RowIsOf` | packages/cli/src/active-workflow-manager.ts:170-187 | A stored row has the workflow, node, verb and stripped path of its webhook, and is keyed by the last two. |
| `WebhookRegistration.KeepsKeys` | packages/cli/src/webhooks/webhook.service.ts:110-114 | A table in which each row sits under its own verb and path stays so through registration. |
| `WebhookRegistration.RequestFindsWebhook` | packages/cli/src/active-workflow-manager.ts:164-225 | After registration succeeds, on start-up too, a request with the verb and the stored path of a webhook finds the row of that webhook, unless storing it failed or a later stored webhook equals it in both. |
| `WebhookRegistration.FirstFailureDecides` | packages/cli/src/active-workflow-manager.ts:192-224 | The first failure that is not ignored on start-up decides the result: a taken path if a query failed, the error itself otherwise. |
| `WebhookRegistration.OthersKeepUnlessOverwritten` | packages/cli/src/webhooks/webhook.service.ts:110-114 | A row of another workflow is unchanged if and only if no stored webhook has its key. |
| `WebhookRegistration.OverwrittenStays` | packages/cli/src/active-workflow-manager.ts:189-224 | A key that is free or the workflow's own never ends with a row of another workflow. |
| `WebhookRegistration.InsertingKeepsOthers` | packages/cli/src/active-workflow-manager.ts:212-216 | If storing fails on keys of other workflows, the rows of other workflows are the same before and after, whatever fails. |
| `WebhookRegistration.AllOrNothing` | packages/cli/src/active-workflow-manager.ts:164-225 | Outside start-up the result is success exactly if nothing failed, and then each key holds the last webhook that has it; otherwise, if the rollback succeeds, no row of the workflow is left. |
| `WebhookRegistration.WebhookRegistry.AddWebhooks` | packages/cli/src/active-workflow-manager.ts:151-229 | The loop, with stripping, skipping on start-up, and rollback, leaves the table and the result that `AddAll` says; each row stays under its own verb and path, and success means exactly that nothing failed but queries on start-up. |
| `WebhookRegistration.WebhookRegistry.StoreWebhook` | packages/cli/src/active-workflow-manager.ts:164-191 | Building, stripping and completing the entity and upserting it stores one row, of the workflow, node, verb and stripped path, under that verb and path, and changes no other; if storing fails nothing changes. |
| `WebhookRegistration.WebhookRegistry.ClearWebhooks` | packages/cli/src/active-workflow-manager.ts:235-268 | Finding the rows of the workflow and removing them one by one leaves none of them and every other row as it was. |
| `NodeDescriptions.InjectionPointwise` | packages/cli/src/load-nodes-and-credentials.ts:263-285 | Injection throws if and only if some list it targets is empty; otherwise it adds the option once to exactly the targeted lists, however many properties and nodes share them. |
| `NodeDescriptions.LeftPointwise` | packages/cli/src/load-nodes-and-credentials.ts:263-285 | Wherever injection throws, each list is as it was, or is a targeted one with the option added once. |
| `NodeDescriptions.EligibleIff` | packages/cli/src/load-nodes-and-credentials.ts:237-270 | Exactly the nodes without a default version, or of that version, take the option that use a credential whose type, the first of its name, authenticates itself or lists an OAuth type. |
| `NodeDescriptions.ToolIsDescribed` | packages/cli/src/load-nodes-and-credentials.ts:448-513 | A tool has the name and display name of its node with the suffix, no inputs, the tool output, and a codex with the resources of its node; its description property starts as the description of the node, and it can be chosen next to resources or operations. |
| `NodeDescriptions.ConvertTwiceAddsNothing` | packages/cli/src/load-nodes-and-credentials.ts:454-500 | A tool always has a description property and keeps its node's properties at the end; converting it again adds nothing. |
| `NodeRebuild.ToolShows` | packages/cli/src/load-nodes-and-credentials.ts:436-514 | With its copies injected, the tool shows the conversion of its node. |
| `NodeRebuild.RebuildShows` | packages/cli/src/load-nodes-and-credentials.ts:335-402 | After a rebuild the types are the nodes followed by one tool per usable node; a node shows the option on every list any node exposes, a tool on those its own node exposes, and the loaders' own lists hold it too. |
| `NodeRebuild.RebuildThrowsOnEmptyList` | packages/cli/src/load-nodes-and-credentials.ts:272-276 | A rebuild throws if and only if a node that takes the option exposes an empty list. |
| `NodeRebuild.SecondRebuildNeverThrows` | packages/cli/src/load-nodes-and-credentials.ts:335-402 | A rebuild from the lists that a rebuild left does not throw. |
| `NodeRebuild.ToolShowsSameIfKeepsUp` | packages/cli/src/load-nodes-and-credentials.ts:313-333 | The tool made from the lists that a rebuild left shows the same as the one made before it, if and only if its node itself exposes each of its lists that any node exposes, or the list had the option. |
| `NodeRebuild.RebuildTwice` | packages/cli/src/load-nodes-and-credentials.ts:335-402 | Rebuilding twice shows the same types as once if and only if that condition holds of every usable node. |
| `NodeRebuild.UnsharedKeepsUp` | packages/cli/src/load-nodes-and-credentials.ts:263-285 | A node that shares no list with another meets the condition. |
| `NodeRebuild.SharedListBreaksRebuildTwice` | packages/cli/src/load-nodes-and-credentials.ts:263-285 | A usable node without credentials that shares its resource list with a node that takes the option does not. |
| `RebuildAfterLookups.ForwardsAuthAfterLookups` | packages/cli/src/load-nodes-and-credentials.ts:237-257 | With `extends` lists shared as loaders that load at once share them, a credential type forwards authentication after lookups if and only if it did before, or it was looked up, itself or through an heir, and lies anywhere under an OAuth type. |
| `RebuildAfterLookups.EligibleAfterLookups` | packages/cli/src/load-nodes-and-credentials.ts:263-269 | A node takes the option then if and only if it did before or is a latest version with such a credential. |
| `RebuildAfterLookups.LookupGainsAuth` | packages/cli/src/load-nodes-and-credentials.ts:250-255 | One lookup of a type whose grandparent is an OAuth type is enough. |
| `RebuildAfterLookups.RebuildAfterLookups` | packages/cli/src/load-nodes-and-credentials.ts:335-402 | A rebuild after any lookups throws if and only if a list that only now receives the option is empty; otherwise it shows the same types as the one before them if and only if neither a node nor a tool has a list without the option that only now receives it. |
| `NodeIndex.NameRoundTrip` | packages/cli/src/load-nodes-and-credentials.ts:404-412 | A generated name is read back as the package and node it was made of if and only if neither has a dot. |
| `NodeIndex.NamesNeverCollide` | packages/cli/src/load-nodes-and-credentials.ts:344-374 | Without dots, index keys of different packages or nodes differ. |
| `NodeIndex.EntryIsFromLast` | packages/cli/src/load-nodes-and-credentials.ts:376-392 | The index knows a credential exactly if some loader does, and its entry is that of the last loader that knows it. |
| `NodeIndex.NodeIndexMatchesLookup` | packages/cli/src/load-nodes-and-credentials.ts:368-374 | A name is in the node index exactly when the loader that `getNode` picks for it knows the node, with that loader's entry, if and only if it has one dot or is not in the index. |
| `IndexContents.NodesAreListed` | packages/cli/src/load-nodes-and-credentials.ts:343-349 | The types before the tools are the nodes of the loaders, loader after loader and in order, each under the name of its package, a dot and its own, and otherwise unchanged. |
| `IndexContents.CredentialsAreListed` | packages/cli/src/load-nodes-and-credentials.ts:350-358 | The same of the credentials, whose supported nodes are listed in full, and only for packages. |
| `IndexContents.OwnSourceIff` | packages/cli/src/load-nodes-and-credentials.ts:368-374 | A node that a loader knows is indexed with the class, directory and path of that loader if and only if the last loader that knows a node of the same full name has the same. |
| `IndexContents.DottedPackageLosesSource` | packages/cli/src/load-nodes-and-credentials.ts:368-374 | Two distinct packages of which one has a dot can claim the same full name, and the earlier one loses its source. |
| `IndexContents.OnlyKnownAreIndexed` | packages/cli/src/load-nodes-and-credentials.ts:368-374 | A name is in the node index if and only if some loader knows a node of that full name. |
| `IndexContents.ListedNodesAreIndexed` | packages/cli/src/load-nodes-and-credentials.ts:343-374 | For distinct packages without a dot, a listed node that its loader knows is indexed with that loader's class, directory and path. |
| `IndexContents.CredentialIsIndexed` | packages/cli/src/load-nodes-and-credentials.ts:376-392 | The entry of a credential has the class, path and parents that the last loader that knows it gives, and its supported nodes in full. |
| `IndexContents.HeldNodeIsLoaded` | packages/cli/src/load-nodes-and-credentials.ts:360-362 | A node class that a loader holds is kept under its full name, unless a later loader holds one under the same name. |
| `IndexContents.UsableInOrder` | packages/cli/src/load-nodes-and-credentials.ts:314-317 | The usable nodes are those marked so, each once and in the order of the list. |
| `NodeIndex.SupportedAfterAnyTools` | packages/cli/src/load-nodes-and-credentials.ts:325-331 | For any usable nodes, a credential supports a name after the tools are added if and only if it supported one that turns into it by taking the names of tools in order. |
| `NodeIndex.SourcesAfterAnyTools` | packages/cli/src/load-nodes-and-credentials.ts:322-323 | For any usable nodes, the source of each name is that of the node whose tool took the name last, and otherwise stays. |
| `NodeIndex.ToolIndexesAgree` | packages/cli/src/load-nodes-and-credentials.ts:313-333 | When no usable node is named like a tool of another, a credential supports the tool if and only if it supports the node, unless it listed the name of the tool without the node before. |
| `NodeIndex.ToolAmongNodes` | packages/cli/src/load-nodes-and-credentials.ts:317-323 | A usable node named like the tool of another loses its source to it, and the source of its own tool depends on the order. |
| `NodeIndex.AnswerMatchesIndex` | packages/cli/src/load-nodes-and-credentials.ts:414-429 | A known credential is answered with the class of the loader that its index entry came from, unless a loader that knows it throws. |
| `NodeIndex.LookupsNeverChangeAnswers` | packages/cli/src/load-nodes-and-credentials.ts:417-422 | No sequence of lookups, with its writes to both caches, changes a later answer, even after one that throws. |
| `NodeIndex.IndexAfterLookup` | packages/core/src/nodes-loader/directory-loader.ts:207-248 | After a lookup of a credential the index of a rebuild can differ only there, and is the same if and only if a loader threw, the last loader that knows it did not load it, or its file and the nodes loaded so far give the same entry. |
| `NodeIndex.AnswerIsHeld` | packages/core/src/nodes-loader/directory-loader.ts:189-204 | What a loader answers it holds from then on, what it holds is answered without its file, and nothing it held is replaced. |
| `NodeIndex.CredentialSupportsLoaded` | packages/core/src/nodes-loader/directory-loader.ts:181-219 | A credential that is loaded after a node that uses it has the entry of its file and supports that node; all other entries stay. |
| `NodeIndex.NodeLoads` | packages/core/src/nodes-loader/directory-loader.ts:162-187 | A node that is loaded from its file gets the entry of the file, its descriptions come after those of the nodes before, and no other entry changes. |
| `NodeIndex.NodeLookupNeverChangesAnswers` | packages/cli/src/load-nodes-and-credentials.ts:404-412 | Looking up a node changes no later answer of `getNode`. |
| `NodeIndex.SameNodesAfterLookup` | packages/core/src/nodes-loader/directory-loader.ts:177-203 | A rebuild after a node lookup starts from the same nodes if and only if the lookup did not load a file with descriptions, which it would list again. |
| `NodeIndex.SameEntriesAfterLookup` | packages/core/src/nodes-loader/directory-loader.ts:162-165 | The entries that a rebuild reads off a loader are the same after a node lookup if and only if the node was not loaded or its file gives the same source. |
| `NodeIndex.FurtherPartsAreIgnored` | packages/cli/src/load-nodes-and-credentials.ts:405-411 | What follows a second dot in a name does not change the answer of `getNode`. |
| `LoadNodesAndCredentialsService.ToolsAreIndexed` | packages/cli/src/load-nodes-and-credentials.ts:313-333 | The tool in the type list and its entries in both indexes carry the same name, source and supporting credentials as its node. |
| `LoadNodesAndCredentialsService.ListedToolsAreIndexed` | packages/cli/src/load-nodes-and-credentials.ts:313-374 | For distinct packages without a dot, the tool of a usable node that its loader knows is in the type list under the full name of its node, and in the index with that loader's class, directory and path. |
| `LoadNodesAndCredentialsService.LoadNodesAndCredentials.ConvertNodeToAiTool` | packages/cli/src/load-nodes-and-credentials.ts:436-514 | The step-by-step edits of the description give the conversion `AsTool`, with the fields that `ToolIsDescribed` is about. |
| `LoadNodesAndCredentialsService.LoadNodesAndCredentials.CreateAiTool` | packages/cli/src/load-nodes-and-credentials.ts:318-331 | One turn adds one tool with its own copies of the lists, and its index entries. |
| `LoadNodesAndCredentialsService.LoadNodesAndCredentials.PushSupported` | packages/cli/src/load-nodes-and-credentials.ts:325-331 | The tool is appended to exactly the supported lists that hold its node. |
| `LoadNodesAndCredentialsService.LoadNodesAndCredentials.CreateAiTools` | packages/cli/src/load-nodes-and-credentials.ts:313-333 | The loop over the nodes usable at its start adds one tool each, in order. |
| `LoadNodesAndCredentialsService.LoadNodesAndCredentials.InjectCustomApiCallOptions` | packages/cli/src/load-nodes-and-credentials.ts:263-285 | The loops push to the shared lists as `InjectedAll` says, and where reading the last item of an empty list throws they leave the lists that `LeftPointwise` is about. |
| `LoadNodesAndCredentialsService.LoadNodesAndCredentials.IndexNodes` | packages/cli/src/load-nodes-and-credentials.ts:368-374 | The loop over a loader's known nodes adds exactly its entries under full names. |
| `LoadNodesAndCredentialsService.LoadNodesAndCredentials.IndexCredentials` | packages/cli/src/load-nodes-and-credentials.ts:376-392 | The loop over a loader's known credentials overwrites exactly their entries. |
| `LoadNodesAndCredentialsService.LoadNodesAndCredentials.IndexLoaders` | packages/cli/src/load-nodes-and-credentials.ts:336-393 | The loop over the loaders rebuilds types, known entries and loaded classes from nothing; it lists all nodes and credentials in order under full names. |
| `LoadNodesAndCredentialsService.LoadNodesAndCredentials.PostProcessLoaders` | packages/cli/src/load-nodes-and-credentials.ts:335-402 | A rebuild lists all nodes and credentials in order under full names, gives indexes that depend on the loaders alone, so that rebuilding again gives the same ones, and the types and lists of `Rebuilt`, also where it throws. |
| `LoadNodesAndCredentialsService.LoadNodesAndCredentials.PostProcessTwice` | packages/cli/src/load-nodes-and-credentials.ts:335-402 | Two rebuilds in a row: the second never throws where the first did not, the indexes are the same, and the types show the same if and only if every usable node keeps up. |
| `LoadNodesAndCredentialsService.LoadNodesAndCredentials.GetNodeOf` | packages/core/src/nodes-loader/directory-loader.ts:189-204 | A loader answers with the class it holds or loads the file first, which also adds its descriptions. |
| `LoadNodesAndCredentialsService.LoadNodesAndCredentials.GetNode` | packages/cli/src/load-nodes-and-credentials.ts:404-412 | The picked loader answers, unknown packages throw, no other loader changes, and the bounds of the lists are kept. |
| `LoadNodesAndCredentialsService.LoadNodesAndCredentials.GetCredential` | packages/cli/src/load-nodes-and-credentials.ts:414-429 | The loop over the loaders gives the answer and the caches after it, including where a loader throws. |

## Left out

- CredentialInheritance.CredentialTypes.constructor: assumes that no two types share one `extends` list and that the graph is acyclic; on a cyclic graph the recursion does not end.
- Overwrites.CredentialsOverwrites.SetData: an overwrite of null is the empty record here, which the code treats the same way; data other than JSON objects is not modelled.
- OverwritePrecedence.PrecedenceSurvivesIff: assumes that no list repeats a type; for lists that do, `UnambiguousKeepsAnswers` and `SetDataKeepsKeys` apply.
- ExecutionShutdown.ShutdownEndsIff: assumes that during the wait loop nothing is added and no execution starts to wait; whether and when handlers run is left to the environment.
- ExecutionOwnership.OwnedOnEveryRun: assumes that an id is added again only after its earlier handlers ran, and that a waiting execution is stopped only after its handler; `OwnedIffDisciplined` shows that each step needs exactly this.
- ExecutionOwnership.ParkedOnEveryRun: also assumes that a status other than waiting is set only before the handler, and so do `ShutdownDrains` and the theorems on the end of shutdown; `ParkedIffTimely` shows that each step needs exactly this.
- ActiveExecutionsService.ActiveExecutions.StopExecution: what a cancelled workflow execution then does is not modelled.
- WorkflowActivation.ActiveWorkflowManager.OnTimeout: a retry and an `add` are one atomic step each; a removal or re-queueing while a retry awaits is not modelled.
- WorkflowActivation.ActiveWorkflowManager.AddActiveWorkflows: the method runs the activations of one batch one after another; `StartUpMayOverlap` covers their overlap.
- WorkflowActivation.ActiveWorkflowManager.Remove: what `clearWebhooks` does is modelled in `Webhooks`, not here.
- WebhookRegistration.WebhookRegistry.ClearWebhooks: calls to the webhook services and the missing-workflow error are the `rollback` parameter of `AddWebhooks`.
- LoadNodesAndCredentialsService.LoadNodesAndCredentials.IndexLoaders: a joined path is a pair of directory and path.
- LoadNodesAndCredentialsService.LoadNodesAndCredentials.GetCredential: a loader's file is assumed to define the type it is known under, and the entry it writes takes a copy of the nodes loaded so far, which the code shares.
- IndexContents.ListedNodesAreIndexed: assumes distinct packages without a dot in their names, and so does `ListedToolsAreIndexed`, which also assumes that no usable node is named like a tool; `OwnSourceIff` and `SourcesAfterAnyTools` are the exact statements.
- WebhookRegistration.RequestFindsWebhook: is about `findStaticWebhook`; the search among dynamic webhooks is not modelled.
- WorkflowActivation.RemovedNeverFires: a retry that is already waiting for the database when the workflow is removed is not modelled.
- RebuildAfterLookups.RebuildAfterLookups: assumes that all types of one name share one `extends` list, as they do when one loader knows the name.
- Concurrency control is a value inside the registry's state, not an object of its own; unknown execution modes, which throw, are not modelled.
- Only option lists are shared by address; other parts of a node description are values. Descriptions without properties and post-processors of `postProcessLoaders` are not modelled.
- Response and run data are opaque; logging, events, telemetry, error reporting and error workflows are left out.
- Multi-main publishing: the receiving side is not part of this model.
- The watching part of hot reload, file globbing, icons, schema paths, the webhook cache and static data are left out.
- `manual-execution.service.ts`, `credentials-helper.ts` and the HTTP, database and licence code would only add delegations.
