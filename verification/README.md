# Verified models of the workflow automation server

The project models the parts of `packages/cli/src` in which state outlives a single call: resuming
waiting executions from several processes, the table of active executions with its queued clean-up
callbacks, inheritance of credential overwrites, repair of node credentials with caches, the retry queue
for failed activations, leader-only triggers in a multi-main cluster, nested and resumed deadlines, timers
of waiting executions, and the printing of key paths. `dafny verify dfyconfig.toml` checks everything.

| file | component |
|---|---|
| `ResumeProtocol.dfy` | timers and finishing children that race to resume one database row, as a step system |
| `ResumePeriods.dfy` | when a resumed execution works on the data of its waiting period, with runs for every case in which it does not |
| `ActiveExecutions.dfy` | the active executions of one process, as a class over heap records |
| `CredentialTypes.dfy` | `getParentTypes`, a walk over an array that grows while it is walked |
| `CredentialsOverwrites.dfy` | flattening, answering, applying, saving and loading overwrites |
| `CredentialRepair.dfy` | `replaceInvalidCredentials` and its two caches |
| `ActivationQueue.dfy` | the activation retry queue |
| `LeaderGating.dfy` | triggers and pollers in a multi-main cluster, as a step system |
| `WaitTracker.dfy` | the timers of waiting executions |
| `Deadlines.dfy` | soft and hard execution deadlines |
| `KeyPaths.dfy` | `getAllKeyPaths` and a resolver that reads its paths back |
| `Wrappers.dfy`, `Collections.dfy` | `Option`; facts about sequences and sets |

Code that changes fields or arrays is a class or a loop here, proved against a function on values; the
theorems are about those functions, about runs of any length, or are invariants of the class. A run is
any sequence of actions; an action that is not enabled changes nothing.

Conditions that fail in the code are stated exactly. In short:

- The update that resumes an execution checks the status of its row, not its waiting period. Whoever wins
  resumes what the execution saved in the period that it wins, up to a delivered head, exactly if it
  fetched in that period and no write of the period was read in another one; a fetch in an earlier period,
  or while the row was not waiting, may bring old data. It delivers a finished child's output exactly if it
  wrote in a waiting period and fetched in the same one; otherwise it may resume the parent with its
  original input.
- Capacity is held for good by a segment whose record goes away while its promise is open. That happens in
  four places and no other: a waiting record is stopped; a resume replaces a record that is not finalised
  yet; the callback of a segment that was replaced while it was not waiting removes the newer record; a
  shutdown drops idle records. A finalisation that comes after the replacement settles the newer record.
- Cached credential repair differs from direct lookup exactly when an unresolvable entry is followed,
  under the same type and id, by one with another name.
- Enqueueing a workflow while a retry of it is in flight can give it a second timer, contrary to the
  comment at `active-workflow-manager.ts:853-854`. A retry that only publishes a command ends the retries
  although the workflow stays queued, contrary to the comment at `active-workflow-manager.ts:806-810`.
- A leader that steps down during an `add` may end up with triggers as a follower. So does one whose leader
  checks overlap: if two of them see a vacant key, the second fails to set the key that the first has set,
  and takes the flag without a step-down (`multi-main-setup.ee.ts:124-142`). A key that expires under its
  holder, and one that expires after such a failed attempt, lets two processes hold the same triggers.
- What `setPlainData` stores for a type depends on the order of the keys: a type visited after one below it
  keeps its raw entry. `get` does not depend on it with single inheritance.
- Entries that the wait tracker keeps when it steps down suppress their timers after the next take-over; a
  timer left behind by a direct resumption survives the step-down.
- The comment at `workflow-runner.ts:324-326` promises a timeout relative to the start of the execution.
  Every segment overwrites that start (`execution.repository.ts:368-374`), so from the third segment on
  the timeout is relative to the previous segment.

## Model

| member | source | states |
|---|---|---|
| ResumeProtocol.ApplyKeeps | packages/cli/src/wait-tracker.ts:97-167 | every step of every process, timer and child keeps the invariant: one owner per execution and none while the row waits, one winner per waiting period, capacity held exactly by resumers at their update and by winners, and row data that is the saved data up to a delivered head |
| ResumeProtocol.RunKeeps | packages/cli/src/active-executions.ts:97-123 | the invariant holds after every run |
| ResumeProtocol.AtMostOneOwner | packages/cli/src/active-executions.ts:97-118 | in no run do two segments own one execution, and none owns a waiting one |
| ResumeProtocol.ResumedAtMostAsOftenAsWaiting | packages/cli/src/active-executions.ts:109-118 | an execution is resumed at most as often as its row entered waiting, and strictly less often while it waits |
| ResumeProtocol.LosingChangesNothing | packages/cli/src/active-executions.ts:109-123 | a helper of the theorems below, the two outcomes of the conditional update: the capacity returned by the loser was held, and the owner added by the winner is new |
| ResumeProtocol.WinningChildDelivers | packages/cli/src/workflow-helpers.ts:274-318 | whatever interleaves, a child whose write and fetch fall in one waiting period and that wins resumes the parent with the output of a finished child at the head of the stack |
| ResumeProtocol.ChildReads | packages/cli/src/workflow-helpers.ts:291-307 | a child goes on to write exactly if it has an output and its parent waits with a node on its stack |
| ResumeProtocol.ChildWriteStores | packages/cli/src/workflow-helpers.ts:309-317 | the write puts the child's output in place of the first input of the data read; the other waiting nodes and the rest of the data, the status of the row and every other row stay |
| ResumeProtocol.FetchSees | packages/cli/src/wait-tracker.ts:101-112 | a fetch throws exactly if there is no row or the execution has succeeded, and otherwise holds the data of the row and its waiting period |
| ResumeProtocol.EndingStores | packages/cli/src/wait-tracker.ts:149-166 | a segment that ends stores its status and data and gives the execution up; waiting begins a new period with these data |
| ResumeProtocol.RowsStartAndStop | packages/cli/src/active-executions.ts:71-95 | a new execution has one owner and keeps its data; marking it running and cancelling it while it waits change its status only |
| ResumeProtocol.ResumersAreLocal | packages/cli/src/active-executions.ts:97-123 | a resumer's steps touch no row but its target and no other resumer or its capacity; only a write and an update change a row |
| ResumeProtocol.WinnerResumesTheSavedData | packages/cli/src/workflow-helpers.ts:286-317 | if no write of the fetched period was read in another one, the winner resumes what the parent saved in it, with at most the first input replaced by a finished child's output, all other inputs and the rest being the same; if it wins the period that it fetched, this is what the parent saved in the period that ends |
| ResumePeriods.ResumesThePeriodIff | packages/cli/src/wait-tracker.ts:101-132 | for every won period, every fetched period or a fetch while the row was not waiting, and both kinds of cleanness: in all runs the winner resumes the data of the period that it wins if and only if that is the clean period that it fetched |
| ResumePeriods.DeliversIff | packages/cli/src/workflow-helpers.ts:274-318 | for every place of the write and of the fetch, in a period or outside: in all runs the winner delivers a finished child's output if and only if it wrote in a period and fetched in the same one |
| ResumePeriods.FetchDeliversIff | packages/cli/src/workflow-helpers.ts:269-284 | at the fetch of a waiting row: every continuation in which the resumer wins before the period ends delivers a finished child's output if and only if the row carries one at the fetch |
| ResumePeriods.LoneChildResumes | packages/cli/src/workflow-helpers.ts:286-318 | in every reachable state, a child that nobody interferes with resumes its waiting parent with exactly its output in place of the first input |
| ResumePeriods.LateWriteDeliversNothing | packages/cli/src/workflow-helpers.ts:294-317 | for any two data: a child that reads in one period and writes after it may win the next one with the original input |
| ResumePeriods.EarlyWriteDeliversNothing | packages/cli/src/workflow-helpers.ts:294-317 | for any two data: a child that writes in one period and fetches in the next may win that one with the original input |
| ResumePeriods.StaleFetchResumesOldData | packages/cli/src/wait-tracker.ts:101-132 | for any two data: a timer that fetched in one period may win the next one with data the parent had replaced |
| ActiveExecutions.ActiveExecutions.constructor | packages/cli/src/active-executions.ts:40-58 | the empty table is valid and live |
| ActiveExecutions.ActiveExecutions.Reserve | packages/cli/src/active-executions.ts:68-95 | reserving counts once on its queue and keeps conservation: capacity held equals the calls past the reservation plus the segments not cleaned up |
| ActiveExecutions.ActiveExecutions.Release | packages/cli/src/concurrency/concurrency-capacity-reservation.ts:30-36 | gives back one unit on its queue if it holds one, and nothing the second time |
| ActiveExecutions.ActiveExecutions.CompleteAdd | packages/cli/src/active-executions.ts:109-161 | a lost update leaves every record and returns the capacity; a won one installs a record that takes over start time and response promise of the record it replaces, which is stranded exactly if its promise is open |
| ActiveExecutions.ActiveExecutions.AttachWorkflowExecution | packages/cli/src/active-executions.ts:167-169 | attaches to the current record or reports that there is none |
| ActiveExecutions.ActiveExecutions.AttachResponsePromise | packages/cli/src/active-executions.ts:171-176 | attaches to the current record or reports that there is none |
| ActiveExecutions.ActiveExecutions.SetStatus | packages/cli/src/active-executions.ts:290-292 | reaches the current record only, so a replaced segment keeps its status; the table stays live exactly if the record is put to wait or was not cleaned up |
| ActiveExecutions.ActiveExecutions.FinalizeExecution | packages/cli/src/active-executions.ts:223-242 | settles the current record once and queues its callback once; the segment that ended is settled if and only if it is still current |
| ActiveExecutions.ActiveExecutions.StopExecution | packages/cli/src/active-executions.ts:193-220 | a waiting record is deleted, and its segment is stranded exactly if its promise was open; any other is cancelled and settled; nothing happens for an unknown id |
| ActiveExecutions.ActiveExecutions.IdleCapacityIsStranded | packages/cli/src/active-executions.ts:141-147 | once everything that can settle has been cleaned up, the capacity still held is exactly that of the adds under way and of the stranded segments |
| ActiveExecutions.ActiveExecutions.RunCallback | packages/cli/src/active-executions.ts:141-156 | the capacity goes back once; the record is removed unless the segment is waiting; a segment replaced while waiting never removes the newer record; one replaced in another status strands the newer record exactly if that is open; no other segment is stranded |
| ActiveExecutions.ActiveExecutions.RunCallbacks | packages/cli/src/active-executions.ts:141-156 | draining the queue cleans up every settled segment and leaves exactly the records no queued callback removes; stranded are exactly the open ones among the removed |
| ActiveExecutions.ActiveExecutions.AfterTheFirst | packages/cli/src/active-executions.ts:147-155 | what remains after a queue of callbacks is what remains of the first one's effect after the others |
| ActiveExecutions.ActiveExecutions.Shutdown | packages/cli/src/active-executions.ts:307-326 | cancelling in regular mode leaves settled records only and no waiting one; otherwise exactly the records neither waiting nor new remain and nothing else changes; stranded are exactly the open ones among the dropped; cancelling visits every record once, rejects its response promise, asks the attached workflow of one that is not waiting to stop, and forgets the response mode of exactly the waiting ones |
| ActiveExecutions.ActiveExecutions.ShutdownCancelling | packages/cli/src/active-executions.ts:307-339 | a cancelling shutdown and the drained callbacks leave the table empty and every record that was not waiting cleaned up |
| ActiveExecutions.ActiveExecutions.ShutdownWaiting | packages/cli/src/active-executions.ts:322-339 | any other shutdown ends its wait loop once the remaining executions settle, all of them cleaned up |
| ActiveExecutions.ActiveExecutions.Sleep | packages/cli/src/active-executions.ts:332-339 | one turn of the wait loop settles exactly the open records among the finishing ones, cleans up what is settled, and removes exactly the finishing records that are not waiting, besides those already queued; if all are to finish, the table is empty if and only if no record that survives the queued callbacks is waiting |
| CredentialTypes.GetParentTypes | packages/cli/src/credential-types.ts:26-38 | the walk over the growing array ends on every acyclic registry and returns the level-order list |
| CredentialTypes.VisitOne | packages/cli/src/credential-types.ts:33-35 | one turn of the loop: visiting the front pushes its parent types behind the queue |
| CredentialTypes.ParentTypesAreTheAncestors | packages/cli/src/credential-types.ts:23-38 | the set of results is exactly the set of proper ancestors, defined by paths |
| CredentialTypes.ParentTypesAreSupported | packages/cli/src/credential-types.ts:31-37 | every listed type is listed after a type that extends it |
| CredentialTypes.AnswersExistIffAcyclic | packages/cli/src/credential-types.ts:26-38 | the recursion has a finite answer for every type if and only if the registry is acyclic |
| CredentialTypes.AnswersAreUnique | packages/cli/src/credential-types.ts:26-38 | whatever satisfies the equations of the recursion is the level-order list, in its order and with its duplicates |
| CredentialTypes.ChainIsThePath | packages/cli/src/credential-types.ts:27-29 | with single inheritance the chain is the whole path to the root |
| CredentialTypes.ParentTypesStartWithTheChain | packages/cli/src/credential-types.ts:31-37 | with single inheritance the result starts with the exact nearest-first ancestor list |
| CredentialsOverwrites.OverwriteService.SetPlainData | packages/cli/src/credentials-overwrites.ts:102-115 | in any key order the loop stores the specified flattening, which stays between the raw data and what the types inherit |
| CredentialsOverwrites.OverwriteService.GetOverwrites | packages/cli/src/credentials-overwrites.ts:177-207 | the memoised answer, possibly not yet written back, lies between the raw entry and what the type inherits |
| CredentialsOverwrites.OverwriteService.Get | packages/cli/src/credentials-overwrites.ts:209-216 | answers exactly the keys set by the type or an ancestor in the raw data, each with a value the type inherits |
| CredentialsOverwrites.OverwriteService.ApplyOverwrite | packages/cli/src/credentials-overwrites.ts:139-175 | returns the specified application of the effective overwrites |
| CredentialsOverwrites.FillEmptyFields | packages/cli/src/credentials-overwrites.ts:165-174 | the loop over the overwrite keys, in any order, fills the empty fields |
| CredentialsOverwrites.EmptyFields | packages/cli/src/credentials-overwrites.ts:152-157 | null, undefined, the empty string and a missing key are empty, and nothing else is |
| CredentialsOverwrites.ResolveIsBetween | packages/cli/src/credentials-overwrites.ts:177-207 | whatever was resolved before, an answer keeps the raw entry and adds inherited values only |
| CredentialsOverwrites.OwnEntryIsAnswered | packages/cli/src/credentials-overwrites.ts:177-193 | an unrecognized type has no answer; any other is answered with at least its own entry |
| CredentialsOverwrites.ParentsAreMerged | packages/cli/src/credentials-overwrites.ts:195-206 | a type asked for the first time is answered with the fields of every recognized parent, whatever else was resolved before |
| CredentialsOverwrites.LastParentWins | packages/cli/src/credentials-overwrites.ts:195-198 | among parents that set a key themselves the answer takes the last |
| CredentialsOverwrites.FirstParentWins | packages/cli/src/credentials-overwrites.ts:209-216 | while `get` on an entry that is not flattened takes the first |
| CredentialsOverwrites.FirstAnswerHasAllKeys | packages/cli/src/credentials-overwrites.ts:177-207 | with nothing resolved before, the answer has exactly the keys that the type or one of its recognized ancestors sets, diamonds included |
| CredentialsOverwrites.RecognizedAncestorsSetAll | packages/cli/src/credentials-overwrites.ts:183-186 | if all ancestors are recognized, these are the keys set by the type or any ancestor |
| CredentialsOverwrites.FirstVisitedIsFlattened | packages/cli/src/credentials-overwrites.ts:108-114 | the type visited first is stored with exactly these keys, and with single inheritance each has the value of the nearest type |
| CredentialsOverwrites.FlattenResolves | packages/cli/src/credentials-overwrites.ts:178-204 | after some visits exactly the recognized types that were visited or are above a visited one are resolved, and types not visited have their raw entries |
| CredentialsOverwrites.StoredWithParentsIff | packages/cli/src/credentials-overwrites.ts:102-115 | the exact rule for every key: visited after a type below it, a type keeps its raw entry; visited before all of these, it is stored with the fields of its recognized parents |
| CredentialsOverwrites.FlattenKeepsSandwich | packages/cli/src/credentials-overwrites.ts:102-115 | in any visiting order and with any types resolved before, stored data stays between raw and inherited |
| CredentialsOverwrites.MergeTakesTheFirst | packages/cli/src/credentials-overwrites.ts:211-215 | in the reversed fold the first listed type that has a key decides it, so later duplicates do not matter |
| CredentialsOverwrites.GetInherits | packages/cli/src/credentials-overwrites.ts:209-216 | on every acyclic registry, whichever entries were flattened: the keys are the union over the type and its ancestors, every value is inherited |
| CredentialsOverwrites.NearestWins | packages/cli/src/credentials-overwrites.ts:102-115 | with single inheritance, after setting data in any order, every key has the raw value of the nearest type that sets it |
| CredentialsOverwrites.InheritedIsUnique | packages/cli/src/credentials-overwrites.ts:195-206 | with single inheritance a type inherits one value per key |
| CredentialsOverwrites.ReloadKeepsEffectiveOverwrites | packages/cli/src/credentials-overwrites.ts:56-136 | saving flattened data and resolving it again elsewhere keeps the keys of every answer, and with single inheritance the whole answer |
| CredentialsOverwrites.AppliedFillsTheGaps | packages/cli/src/credentials-overwrites.ts:146-174 | a non-empty field keeps its content, in a new object if it is one; an empty one is filled exactly if there is an overwrite; a skip-listed type is unchanged exactly if a field that has an overwrite is stored with another non-empty value |
| CredentialsOverwrites.AppliedTwiceIsAppliedOnce | packages/cli/src/credentials-overwrites.ts:139-175 | applying twice changes no content |
| CredentialRepair.ReplaceInvalidCredentials | packages/cli/src/workflow-helpers.ts:115-223 | the loop that rewrites the nodes in place computes the specified walk |
| CredentialRepair.RepairEntry | packages/cli/src/workflow-helpers.ts:132-218 | the branches and cache updates for one entry compute the specified step |
| CredentialRepair.StepKeepsCaches | packages/cli/src/workflow-helpers.ts:137-213 | both caches, negative entries included, stay true to the table |
| CredentialRepair.UniqueIffOneMatch | packages/cli/src/workflow-helpers.ts:145-150 | the lookup by name finds one row exactly if one row, and only one, has this name and type |
| CredentialRepair.EntryBecomes | packages/cli/src/workflow-helpers.ts:132-218 | in terms of the table: a known id gets id and name of its row, an old-style entry the id of the only row with its name, an unknown id that is not cached the same, and anything else stays |
| CredentialRepair.RepairedEntry | packages/cli/src/workflow-helpers.ts:126-218 | what the repair of a whole workflow makes of every known and every old-style entry of its enabled nodes |
| CredentialRepair.DirectBecomes | packages/cli/src/workflow-helpers.ts:132-218 | direct lookup gives the same, for unknown ids always |
| CredentialRepair.SlotsAreTheEntries | packages/cli/src/workflow-helpers.ts:126-132 | the walk meets exactly the entries of the enabled nodes |
| CredentialRepair.StepIsStable | packages/cli/src/workflow-helpers.ts:132-218 | repairing a repaired entry changes nothing, for related caches of a first and a second run |
| CredentialRepair.RepairIsIdempotent | packages/cli/src/workflow-helpers.ts:115-223 | a second run with fresh caches changes no node, for any list of nodes |
| CredentialRepair.OnlyEntriesChange | packages/cli/src/workflow-helpers.ts:126-134 | nodes, order, flags and credential types stay; disabled nodes keep their entries and absent entries stay absent |
| CredentialRepair.NodesAreSlots | packages/cli/src/workflow-helpers.ts:126-132 | the walk over nodes is the walk over the entries of the enabled ones |
| CredentialRepair.CachedIsDirectIff | packages/cli/src/workflow-helpers.ts:119-223 | cached repair equals direct lookup, bare names counted as details without id, if and only if no unresolvable entry is followed under the same type and unknown id by another name |
| CredentialRepair.EqualNamesNeverConflict | packages/cli/src/workflow-helpers.ts:211-218 | equal names under equal unknown ids rule such conflicts out |
| CredentialRepair.OldStyleNamesAreLookedUpOnce | packages/cli/src/workflow-helpers.ts:144-164 | the old-style lookups are exactly the pairs of type and name in enabled nodes, each once |
| ActivationQueue.ActiveWorkflowManager.AddQueuedWorkflowActivation | packages/cli/src/active-workflow-manager.ts:811-863 | removes the workflow, then queues it with a timer of the initial delay |
| ActivationQueue.ActiveWorkflowManager.RemoveQueuedWorkflowActivation | packages/cli/src/active-workflow-manager.ts:868-873 | clears the timer of the entry and the entry, and nothing else |
| ActivationQueue.ActiveWorkflowManager.RemoveAllQueuedWorkflowActivations | packages/cli/src/active-workflow-manager.ts:878-882 | the loop clears every entry and exactly the timers the entries know |
| ActivationQueue.ActiveWorkflowManager.Settle | packages/cli/src/active-workflow-manager.ts:823-851 | a failed retry doubles the delay of the entry up to a day and arms its timer; without an entry the handler throws and arms nothing |
| ActivationQueue.RemovalsTakeEffect | packages/cli/src/active-workflow-manager.ts:868-882 | a removal clears the entry and its timer, clearing the queue does so for every workflow, and nothing else is touched |
| ActivationQueue.RetriesTakeEffect | packages/cli/src/active-workflow-manager.ts:818-851 | a timer that goes off becomes a retry of its workflow and mode, and a failed retry arms a timer for its own |
| ActivationQueue.RetriesKeepTheMode | packages/cli/src/active-workflow-manager.ts:811-862 | without an enqueue during a retry, entry, timer and retry of a workflow carry the mode with which it was last queued |
| ActivationQueue.DelaysStayBounded | packages/cli/src/active-workflow-manager.ts:827-830 | in every run, whatever lands during a retry, every delay is between a second and a day |
| ActivationQueue.DelayFollowsTheBackoff | packages/cli/src/constants.ts:79-80 | in every run a queued workflow's delay, and that of its armed timer, is min(1000 · 2^k, one day) after k failures since it entered the queue |
| ActivationQueue.StepKeepsLane | packages/cli/src/active-workflow-manager.ts:818-873 | no step but an enqueue during a retry gives a workflow a second timer or retry |
| ActivationQueue.AtMostOneTimer | packages/cli/src/active-workflow-manager.ts:853-873 | without such an enqueue a workflow has at most one armed timer, and none once removed |
| ActivationQueue.EnqueueIsSafeIff | packages/cli/src/active-workflow-manager.ts:853-862 | an enqueue keeps this for every continuation if and only if no retry of the workflow is in flight |
| ActivationQueue.FailureArmsASecondTimer | packages/cli/src/active-workflow-manager.ts:843-845 | otherwise that retry's failure arms a second timer, and removing the workflow leaves one armed |
| ActivationQueue.StepKeepsTryingIff | packages/cli/src/active-workflow-manager.ts:806-851 | a queued workflow keeps being retried through every step except exactly the return of its last retry without registration |
| ActivationQueue.PublishingEndsTheRetries | packages/cli/src/active-workflow-manager.ts:604-617 | a run in which the first retry only publishes a command, and the workflow stays queued without timer or retry |
| ActivationQueue.AbandonedStaysAbandoned | packages/cli/src/active-workflow-manager.ts:604-617 | after that it stays queued and is never retried until it is enqueued or removed |
| LeaderGating.TriggersOnlyOnLeaders | packages/cli/src/active-workflow-manager.ts:1027-1035 | over every sequence of checks, take-overs, step-downs, activations, retries and delivered commands in which no leader loses its flag during an add, or by a failed attempt to set the key while it has triggers, triggers are in memory on leaders only |
| LeaderGating.AtomicIsUndisturbed | packages/cli/src/active-workflow-manager.ts:683-689 | neither happens if each add and each check ends before anything else happens |
| LeaderGating.StepIsSafeIff | packages/cli/src/scaling/multi-main-setup.ee.ts:97-143 | a step is safe for every such continuation if and only if it is neither the step-down of a leader with an add in flight nor the failed attempt of a leader that has triggers or an add in flight |
| LeaderGating.TimelyRunsHaveOneLeader | packages/cli/src/scaling/multi-main-setup.ee.ts:71-143 | if the key never expires under a leader and nobody acts on an outdated key, every leader holds the key |
| LeaderGating.NoDuplicateTriggers | packages/cli/src/active-workflow-manager.ts:1027-1035 | in runs from the start that meet both conditions no workflow has triggers on two processes, and they are on the holder of the key |
| LeaderGating.TimelyStepIff | packages/cli/src/scaling/multi-main-setup.ee.ts:76-133 | a step leaves at most one leader in every such continuation if and only if it is not untimely |
| LeaderGating.ExpiryDuplicates | packages/cli/src/scaling/multi-main-setup.ee.ts:124-140 | a key that expires under a leader with triggers lets another process hold the same ones |
| LeaderGating.ExpiryIsReached | packages/cli/src/scaling/multi-main-setup.ee.ts:124-140 | a run from the start in which this happens |
| LeaderGating.FailedTryDuplicates | packages/cli/src/scaling/multi-main-setup.ee.ts:124-142 | a leader with triggers that fails to set its own key keeps them as a follower, and after an expiry another process may hold the same ones although every step is timely |
| LeaderGating.OverlappingChecksLeaveTriggers | packages/cli/src/scaling/multi-main-setup.ee.ts:57-59 | a run from the start in which two overlapping checks of one process make this happen |
| LeaderGating.StepDownDuringAddLeavesTriggers | packages/cli/src/active-workflow-manager.ts:621-689 | a run from the start in which a leader steps down during its add and ends with triggers as a follower |
| LeaderGating.CommandsTakeEffect | packages/cli/src/active-workflow-manager.ts:739-751 | a delivered command does nothing on a follower; on a leader it begins an add that may register, or removes the triggers of its workflow and no others |
| LeaderGating.ActivationReachesTheLeader | packages/cli/src/active-workflow-manager.ts:604-617 | publishing, delivering and ending an add puts the triggers into the leader's memory, and a deactivation takes them out |
| LeaderGating.FailuresAreRetriedByCommand | packages/cli/src/active-workflow-manager.ts:539-547 | a follower's add registers nothing; a failed one is queued, and its retry publishes a command only; a trigger that fails at run time leaves the memory and is queued |
| LeaderGating.LeavingEmptiesTheMemory | packages/cli/src/active-workflow-manager.ts:561-565 | a shutdown and a step-down empty the memory of the process and touch no other; a leader that shuts down gives up the key |
| WaitTracker.WaitTracker.GetWaitingExecutions | packages/cli/src/wait-tracker.ts:59-87 | the loop arms a timer for each found execution that is not tracked |
| WaitTracker.WaitTracker.StartTracking | packages/cli/src/wait-tracker.ts:48-57 | starts a poll interval and polls at once |
| WaitTracker.WaitTracker.StopExecution | packages/cli/src/wait-tracker.ts:89-95 | clears the timer and the entry |
| WaitTracker.WaitTracker.StopTracking | packages/cli/src/wait-tracker.ts:170-180 | clears the interval and every timer of an entry, and keeps the entries |
| WaitTracker.WaitTracker.Tick | packages/cli/src/wait-tracker.ts:81-83 | a timer that goes off is gone and its execution forgotten |
| WaitTracker.FiringForgets | packages/cli/src/wait-tracker.ts:81-99 | every other entry and timer stays |
| WaitTracker.StoppingAndResumingForget | packages/cli/src/wait-tracker.ts:89-99 | stopping clears the timer of the execution, resuming does not; both forget it and leave every other one alone |
| WaitTracker.EntriesStayArmed | packages/cli/src/wait-tracker.ts:75-99 | in every run in which the process never steps down, each tracked execution has its timer armed |
| WaitTracker.FoundIsArmed | packages/cli/src/wait-tracker.ts:73-86 | in such a run every poll leaves each execution that it finds armed, also one whose timer has just gone off |
| WaitTracker.OneIntervalPolls | packages/cli/src/wait-tracker.ts:48-57 | if the process starts tracking only when it does not poll, one interval polls after each start and none after each stop |
| WaitTracker.PollArms | packages/cli/src/wait-tracker.ts:73-86 | a poll leaves tracked executions alone, armed or not, and arms any other found one for the time left; it arms nothing else |
| WaitTracker.StepKeepsKnownIff | packages/cli/src/wait-tracker.ts:97-99 | every armed timer stays the one its entry knows, unless an execution is resumed directly while its timer is armed, which leaves that timer unknown |
| WaitTracker.CalmRunsKnowTheirTimers | packages/cli/src/wait-tracker.ts:59-99 | in every run without such a resumption each execution has at most one armed timer, the one that its entry knows |
| WaitTracker.StoppingDisarmsIff | packages/cli/src/wait-tracker.ts:170-180 | in every run, stepping down disarms exactly the known timers, so all of them if and only if all are known |
| WaitTracker.TakeoverArmsIff | packages/cli/src/wait-tracker.ts:75-85 | in every run, after stepping down and taking over again, an execution has an armed timer if and only if an unknown one survived, or a poll finds it and it was not tracked at the step-down |
| WaitTracker.ForgettingRearms | packages/cli/src/wait-tracker.ts:89-99 | stopping or resuming it by other means makes it eligible again |
| Deadlines.StartExecution | packages/cli/src/workflow-execute-additional-data.ts:324-335 | computes the nested deadline, a parent timestamp of zero counting as none |
| Deadlines.DeadlineIsTheLeastBound | packages/cli/src/workflow-execute-additional-data.ts:324-335 | along any chain of calls the deadline is the minimum of the root deadline and all positive declared ones, and there is none exactly if none exists |
| Deadlines.DeadlineIsBoundedIff | packages/cli/src/workflow-execute-additional-data.ts:329-332 | it never exceeds an enclosing deadline if and only if not both the root deadline is zero and a timeout is declared |
| Deadlines.Execution.RunMainProcess | packages/cli/src/workflow-runner.ts:234-343 | the soft deadline counts from the set-up, the hard timer stops the segment at max(start + timeout, now), at once exactly if overdue; the row's start is overwritten |
| Deadlines.TimeoutApplies | packages/cli/src/workflow-runner.ts:234-238 | a timeout applies exactly if it and the configured maximum are positive, and is the smaller of the two |
| Deadlines.RunSegments | packages/cli/src/workflow-runner.ts:274-343 | the segments of one execution, run one after the other on one row, stop at the specified hard deadlines |
| Deadlines.StopsAsPromisedIff | packages/cli/src/workflow-runner.ts:321-329 | a segment never stops before first start + timeout; a tracked one stops exactly then if and only if it is the second, or its predecessor was set running together with the first, or it is overdue; any other one if and only if it was armed when the first was set running |
| Deadlines.AllStopAsPromisedIff | packages/cli/src/workflow-runner.ts:321-329 | all segments of a tracked execution stop as promised if and only if each one after the second is overdue or follows one that was set running together with the first |
| Deadlines.SecondSegmentKeepsThePromise | packages/cli/src/wait-tracker.ts:121-132 | the second segment does if the wait tracker resumed it |
| Deadlines.ResumingPostponesTheDeadline | packages/cli/src/workflow-runner.ts:323-329 | for every n, an execution that is resumed every half of its timeout stops, after 2n + 2 segments, later than n times its timeout, although no segment is overdue |
| KeyPaths.GetAllKeyPaths | packages/cli/src/utils.ts:104-125 | the recursion pushes exactly the specified paths onto the given array |
| KeyPaths.LabelsAreDotted | packages/cli/src/utils.ts:110-116 | keys are joined with dots and indices put in brackets, whatever characters a key has |
| KeyPaths.DecimalHasNoLeadingZero | packages/cli/src/utils.ts:112 | an index is printed without leading zeros |
| KeyPaths.ListsTheFilteredStrings | packages/cli/src/utils.ts:97-125 | the paths are those of the filtered strings under object keys, each address once, in document order |
| KeyPaths.ResolvesWhatIsPrinted | packages/cli/src/utils.ts:110-116 | with distinct, non-empty keys free of `.`, `[` and `]`, reading a printed path back finds the value it was printed for |
| KeyPaths.ListedPathsResolve | packages/cli/src/utils.ts:104-125 | then the listed paths are distinct, each resolves to a string that passes the filter, and every such string under a key is resolved by one |
| KeyPaths.LoneKeyResolvesIff | packages/cli/src/utils.ts:115-118 | the path of a lone key resolves if and only if the key is non-empty and free of these characters |
| KeyPaths.DottedKeysCollide | packages/cli/src/utils.ts:116-118 | two strings under different keys may be listed under one path |
| KeyPaths.NumberOfDecimal | packages/cli/src/utils.ts:112 | printing an index and reading it gives the index |

## Left out

- Execution data: the row's data are a stack of outputs and an opaque rest; extracting the last node's data from a child's run, pinned data included, is an input.
- `shouldRestartParentExecution`: a child that does not resume its parent is no resumer and does not appear.
- Queue mode: jobs, workers and lifecycle hooks; a segment ends by storing a status and data in its row.
- The concurrency control's own queue of throttled executions; reserving and releasing count on the two limited queues.
- Response streams, events, logging, push messages and error reports.
- Webhooks: their registration, and rolling it back, is in code that is not part of this model.
- `isActivationInProgress` and the batches of `addActiveWorkflows`: any process may begin an `add` at any time, which allows more runs.
- What precedes an attempt to set the leader key: any process may attempt it at any time, which allows more runs; the runs given as witnesses begin with the checks.
- Step-down as several steps: the handlers of `leader-stepdown` empty the memory in one step with the flag.
- Message delivery: a published command may be delivered at any time and any number of times, which allows more runs than Redis does.
- Timers of Node: a delay above 2^31 - 1 milliseconds, which Node shortens, is armed as it is; times are integers.
- `Deadlines.RunSegments` has a loop that the source does not: it stands for the calls that resume one execution again and again.
- A poll that is still waiting for the database when its process steps down.
- Cyclic `extends` lists, on which the source does not return; `AnswersExistIffAcyclic` says exactly when that is.
- The object prototype: a credential type, name or id that is the name of a built-in property finds one in the caches of the source.
- Aliasing of credential details: the source may share one details object between nodes; the nodes are values here.
- JSON and cipher round trips of saved overwrites are taken to be the identity.
- `getAll`: what it holds for each type is `StoredWithParentsIff`.
- Several parents that disagree on a key: `GetInherits` says that the answer is one of the inherited values; which one depends on the flattening, see `LastParentWins` and `FirstParentWins`.
- ActiveExecutions.ActiveExecutions.Shutdown: its wait loop is `Sleep`, one turn at a time; that running executions settle at all is an input.
